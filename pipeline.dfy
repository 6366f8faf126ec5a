/** Pipeline control: the processors are applied to each tile in order, the serialised
    tiles are handed to the workers in batches, and the configuration names the
    processors to build. */
module Pipeline {
  import opened Wrappers
  import opened Values
  import opened Arrays

  /** The exceptions of pipeline building. */
  datatype PipelineError =
    | NotADict                                // the configuration is not a mapping
    | MissingKey(key: string)                 // KeyError from `pop`
    | UnknownProcessor(name: Value)           // a KeyError: the name is not in the module mappings,
                                              // or the module's constructor raised KeyError
    | ConstructionFailed(name: Value, cause: string) // any other error while building

  /** `range(0, n, 0)` raises ValueError. */
  datatype ChunkError = ZeroStep

  /** `_recurse`: each processor gets the previous one's output; a processor that
      returns nothing ends the chain with nothing. A processor is the `process` method
      with the dataset bound. */
  function Recurse<T>(processors: seq<T -> Option<T>>, input: T): Option<T>
    decreases |processors|
  {
    if |processors| == 0 then Some(input)
    else
      match processors[0](input)
      case None => None
      case Some(output) => Recurse(processors[1..], output)
  }

  /** The left-to-right composition of the processors, built from the last one back. */
  function Compose<T>(processors: seq<T -> Option<T>>, input: T): Option<T>
    decreases |processors|
  {
    if processors == [] then Some(input)
    else
      match Compose(processors[..|processors| - 1], input)
      case None => None
      case Some(t) => processors[|processors| - 1](t)
  }

  /** Running two lists one after the other is running their concatenation; a chain
      that ended with nothing does not run the second list at all. */
  lemma {:induction false} RecurseAppend<T>(first: seq<T -> Option<T>>, second: seq<T -> Option<T>>, input: T)
    ensures Recurse(first + second, input) ==
            match Recurse(first, input)
            case None => None
            case Some(t) => Recurse(second, t)
    decreases |first|
  {
    if first != [] {
      assert (first + second)[0] == first[0];
      assert (first + second)[1..] == first[1..] + second;
      match first[0](input)
      case None =>
      case Some(output) => RecurseAppend(first[1..], second, output);
    } else {
      assert first + second == second;
    }
  }

  /** `_recurse` is the composition of the processors from left to right, and the empty
      list returns the input tile. */
  lemma {:induction false} RecurseIsComposition<T>(processors: seq<T -> Option<T>>, input: T)
    ensures Recurse(processors, input) == Compose(processors, input)
    ensures processors == [] ==> Recurse(processors, input) == Some(input)
    decreases |processors|
  {
    if processors != [] {
      var n := |processors| - 1;
      var init := processors[..n];
      RecurseIsComposition(init, input);
      RecurseAppend(init, [processors[n]], input);
      assert init + [processors[n]] == processors;
      match Recurse(init, input)
      case None =>
      case Some(t) =>
        assert [processors[n]][1..] == [];
    }
  }

  /** When processor `k` returns nothing, the chain returns nothing whatever the later
      processors are: none of them is applied. */
  lemma RecurseStopsAtNone<T>(processors: seq<T -> Option<T>>, input: T, k: nat, before: T, later: seq<T -> Option<T>>)
    requires k < |processors|
    requires Recurse(processors[..k], input) == Some(before)
    requires processors[k](before) == None
    ensures Recurse(processors, input) == None
    ensures Recurse(processors[..k + 1] + later, input) == None
  {
    assert processors[..k + 1] + later == processors[..k] + ([processors[k]] + later);
    RecurseAppend(processors[..k], [processors[k]] + later, input);
    assert processors == processors[..k] + ([processors[k]] + processors[k + 1..]);
    RecurseAppend(processors[..k], [processors[k]] + processors[k + 1..], input);
  }

  /** The chunks from index `i` on: `items[i:i + size]` for `i` in `range(i, n, size)`;
      Python clamps the slice end to the length. */
  function ChunksFrom<T>(items: seq<T>, size: nat, i: nat): seq<seq<T>>
    requires size > 0
    decreases |items| - i
  {
    if i >= |items| then []
    else
      var end := if i + size <= |items| then i + size else |items|;
      [items[i..end]] + ChunksFrom(items, size, i + size)
  }

  /** `_chunk_list`: a zero chunk size is an error of `range`; a negative one gives
      no chunks. */
  function ChunkList<T>(items: seq<T>, size: int): (r: Result<seq<seq<T>>, ChunkError>)
    ensures r.Failure? <==> size == 0
    ensures size < 0 ==> r == Success([])
  {
    if size == 0 then Failure(ZeroStep)
    else if size < 0 then Success([])
    else Success(ChunksFrom(items, size, 0))
  }

  /** The chunks from `i` on, laid end to end, are the items from `i` on. */
  lemma {:induction false} ChunksFromConcat<T>(items: seq<T>, size: nat, i: nat)
    requires size > 0 && i <= |items|
    ensures Flatten(ChunksFrom(items, size, i)) == items[i..]
    decreases |items| - i
  {
    if i < |items| {
      var end := if i + size <= |items| then i + size else |items|;
      var rest := ChunksFrom(items, size, i + size);
      if i + size <= |items| {
        ChunksFromConcat(items, size, i + size);
      } else {
        assert rest == [];
      }
      assert ChunksFrom(items, size, i)[1..] == rest;
      assert items[i..] == items[i..end] + items[end..];
    }
  }

  /** The shape of the chunks from `i` on: none is empty, none is longer than `size`,
      all but the last hold exactly `size` items, and there are as many as it takes to
      cover the remaining items: `ceil((n - i) / size)`. */
  lemma {:induction false} ChunksFromShape<T>(items: seq<T>, size: nat, i: nat)
    requires size > 0 && i <= |items|
    ensures var cs := ChunksFrom(items, size, i);
            (forall k :: 0 <= k < |cs| ==> 0 < |cs[k]| <= size) &&
            (forall k :: 0 <= k < |cs| - 1 ==> |cs[k]| == size) &&
            (|cs| - 1) * size < |items| - i <= |cs| * size
    ensures i == |items| <==> ChunksFrom(items, size, i) == []
    decreases |items| - i
  {
    var cs := ChunksFrom(items, size, i);
    if i < |items| {
      if i + size <= |items| {
        ChunksFromShape(items, size, i + size);
        var rest := ChunksFrom(items, size, i + size);
        assert cs[1..] == rest;
        assert |cs| * size == size + |rest| * size by {
          Distrib(|cs|, size);
        }
        if rest != [] {
          assert (|cs| - 1) * size == size + (|rest| - 1) * size by {
            Distrib(|rest|, size);
          }
        }
      } else {
        assert ChunksFrom(items, size, i + size) == [];
        assert cs == [items[i..|items|]] + [];
      }
    }
  }

  /** The chunks of `_chunk_list` laid end to end are the list, and they have the shape
      above, counted from the start. */
  lemma ChunkListProperties<T>(items: seq<T>, size: int)
    requires size > 0
    ensures ChunkList(items, size).Success?
    ensures var cs := ChunkList(items, size).value;
            Flatten(cs) == items &&
            (forall k :: 0 <= k < |cs| ==> 0 < |cs[k]| <= size) &&
            (forall k :: 0 <= k < |cs| - 1 ==> |cs[k]| == size) &&
            (|cs| - 1) * size < |items| <= |cs| * size
  {
    ChunksFromConcat(items, size, 0);
    ChunksFromShape(items, size, 0);
  }

  /** `_validate_config`: only a mapping is accepted. */
  function ValidateConfig(config: Value): (r: Option<PipelineError>)
    ensures r.None? <==> config.VDict?
    ensures r.Some? ==> r.value == NotADict
  {
    if config.VDict? then None else Some(NotADict)
  }

  /** What a module's constructor raises: a KeyError, or any other exception with its
      message. */
  datatype ConstructorError = KeyErr | OtherErr(message: string)

  /** A processor's or slicer's class: builds the module from its keyword arguments,
      or fails with the error it raised. */
  type Factory<M> = map<string, Value> -> Result<M, ConstructorError>

  /** A module configuration: the mapping the `name` key is popped from. */
  class ModuleConfig {
    var entries: map<string, Value>

    constructor (entries: map<string, Value>)
      ensures this.entries == entries
    {
      this.entries := entries;
    }
  }

  /** The outcome of looking up the popped name and building the module from the
      remaining entries. The lookup and the construction share one `try`, so a KeyError
      from either is reported as an unknown processor. */
  function BuildModule<M>(name: Value, kwargs: map<string, Value>, mappings: map<string, Factory<M>>): (r: Result<M, PipelineError>)
    ensures r.Failure? && r.error.UnknownProcessor? <==>
            Hashable(name) && (!(name.VStr? && name.s in mappings) || mappings[name.s](kwargs) == Failure(KeyErr))
    ensures r.Failure? && r.error.UnknownProcessor? ==> r.error.name == name
    ensures r.Success? ==> name.VStr? && name.s in mappings && mappings[name.s](kwargs) == Success(r.value)
    ensures name.VStr? && name.s in mappings && mappings[name.s](kwargs).Failure? && mappings[name.s](kwargs).error.OtherErr? ==>
              r == Failure(ConstructionFailed(name, mappings[name.s](kwargs).error.message))
    ensures !Hashable(name) ==> r.Failure? && r.error.ConstructionFailed?
  {
    if !Hashable(name) then Failure(ConstructionFailed(name, "unhashable type"))
    else if !(name.VStr? && name.s in mappings) then Failure(UnknownProcessor(name))
    else
      match mappings[name.s](kwargs)
      case Success(m) => Success(m)
      case Failure(KeyErr) => Failure(UnknownProcessor(name))
      case Failure(OtherErr(e)) => Failure(ConstructionFailed(name, e))
  }

  /** `_parse_module`: pops `name` from the configuration (a missing one is a KeyError,
      the configuration then unchanged), then builds the named module from the entries
      left, which no longer hold `name`. */
  method ParseModule<M>(config: ModuleConfig, mappings: map<string, Factory<M>>) returns (r: Result<M, PipelineError>)
    modifies config
    ensures "name" !in old(config.entries) ==>
              r == Failure(MissingKey("name")) && config.entries == old(config.entries)
    ensures "name" in old(config.entries) ==>
              config.entries == old(config.entries) - {"name"} && "name" !in config.entries &&
              r == BuildModule(old(config.entries)["name"], config.entries, mappings)
  {
    if "name" !in config.entries {
      return Failure(MissingKey("name"));
    }
    var name := config.entries["name"];
    config.entries := config.entries - {"name"};
    r := BuildModule(name, config.entries, mappings);
  }
}
