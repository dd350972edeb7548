/**
 * Library consumers used with the line enumerator (`IterV.length`,
 * `IterV.head`, `IterV.drop(n).bind(constant(head))` and `IterV.list`),
 * written out as step functions over lines with the behaviour the enumerator
 * tests rely on.
 */
module Consumers {

  import opened Options
  import opened Iteratee

  /** `IterV.length`: counts the elements; end-of-input finishes with the count. */
  function Length(n: nat, input: Input<string>): IterV<nat, string, nat>
  {
    match input
    case El(_) => Cont(n + 1)
    case Empty => Cont(n)
    case Eof => Done(n, Eof)
  }

  /** `IterV.head`: the first element, leaving `Empty` as leftover; `None` at end-of-input. */
  function Head(u: (), input: Input<string>): IterV<(), string, Option<string>>
  {
    match input
    case El(e) => Done(Some(e), Empty)
    case Empty => Cont(())
    case Eof => Done(None, Eof)
  }

  /**
   * `IterV.drop(n).bind(constant(head))`: the state is how many elements are
   * still to be dropped; at 0 the consumer behaves as `head`.
   */
  function DropThenHead(k: nat, input: Input<string>): IterV<nat, string, Option<string>>
  {
    match input
    case El(e) => if k == 0 then Done(Some(e), Empty) else Cont(k - 1)
    case Empty => Cont(k)
    case Eof => Done(None, Eof)
  }

  /** `IterV.list`: collects the elements in order; end-of-input finishes with them. */
  function Collect(acc: seq<string>, input: Input<string>): IterV<seq<string>, string, seq<string>>
  {
    match input
    case El(e) => Cont(acc + [e])
    case Empty => Cont(acc)
    case Eof => Done(acc, Eof)
  }

}

/** The enumerator on a file holding the lines `foo`, `bar`, `baz`. */
module IOScenarios {

  import opened Options
  import opened Iteratee
  import opened IO
  import opened Consumers

  const SamplePath := "/tmp/testEnumFile.tmp"
  const SampleLines := ["foo", "bar", "baz"]

  function SampleWorld(): World
  {
    World(map[SamplePath := File(SampleLines, false)], [])
  }

  /** The counting consumer sees three elements and reads every line. */
  lemma LengthScenario()
    ensures var r := EnumFile(SamplePath, Length, Cont(0))(SampleWorld());
      r.Ok? && Run(Length, r.value) == Some(3) && |r.world.readers| == 1 && r.world.readers[0].pos == 3
  {
    EnumFileRuns(SamplePath, Length, Cont(0), SampleWorld());
    assert SampleLines[1..] == ["bar", "baz"] && SampleLines[1..][1..] == ["baz"];
  }

  /** The head consumer yields `foo`, and the enumerator stops after the first line. */
  lemma HeadScenario()
    ensures var r := EnumFile(SamplePath, Head, Cont(()))(SampleWorld());
      r.Ok? && Run(Head, r.value) == Some(Some("foo")) && |r.world.readers| == 1 && r.world.readers[0].pos == 1
  {
    EnumFileRuns(SamplePath, Head, Cont(()), SampleWorld());
  }

  /** Dropping one line and then taking the head yields `bar`. */
  lemma DropOneScenario()
    ensures var r := EnumFile(SamplePath, DropThenHead, Cont(1))(SampleWorld());
      r.Ok? && Run(DropThenHead, r.value) == Some(Some("bar")) && |r.world.readers| == 1 && r.world.readers[0].pos == 2
  {
    EnumFileRuns(SamplePath, DropThenHead, Cont(1), SampleWorld());
    assert SampleLines[1..] == ["bar", "baz"];
  }

  /** Dropping two lines and then taking the head yields `baz`. */
  lemma DropTwoScenario()
    ensures var r := EnumFile(SamplePath, DropThenHead, Cont(2))(SampleWorld());
      r.Ok? && Run(DropThenHead, r.value) == Some(Some("baz"))
  {
    EnumFileRuns(SamplePath, DropThenHead, Cont(2), SampleWorld());
    assert SampleLines[1..] == ["bar", "baz"] && SampleLines[1..][1..] == ["baz"];
  }

  /** The list consumer collects the lines in file order. */
  lemma ListScenario()
    ensures var r := EnumFile(SamplePath, Collect, Cont([]))(SampleWorld());
      r.Ok? && Run(Collect, r.value) == Some(SampleLines)
  {
    EnumFileRuns(SamplePath, Collect, Cont([]), SampleWorld());
    assert SampleLines[1..] == ["bar", "baz"] && SampleLines[1..][1..] == ["baz"];
    assert [] + ["foo"] + ["bar"] + ["baz"] == SampleLines;
  }

  /** A missing file is reported without opening anything. */
  lemma MissingFileScenario()
    ensures EnumFile("/tmp/missing", Length, Cont(0))(SampleWorld()) == Err(FileNotFound("/tmp/missing"), SampleWorld())
  {
    EnumFileRuns("/tmp/missing", Length, Cont(0), SampleWorld());
  }

}
