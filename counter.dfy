/** clipanion's `Option.Counter`: an option declared under several
    comma-separated names whose value counts how often it was given, a
    negated form (`--no-verbose`) resetting the count. Argument rerouting
    and `makeCommandOption` are foreign: the initial value and the options
    bag arrive already separated. */
module ClipanionCounter {
  import opened Wrappers
  import opened Strings

  /** One entry of `state.options`: a flag name and whether it was given
      plainly (`true`) or negated (`false`). */
  datatype ParsedOption = ParsedOption(name: string, value: bool)

  /** The extra settings passed through to the option definition. */
  datatype CounterOpts = CounterOpts(hidden: Option<bool>, description: Option<string>, required: Option<bool>)

  /** What `definition` registers with the builder. */
  datatype OptionDefinition = OptionDefinition(
    names: seq<string>,
    allowBinding: bool,
    arity: nat,
    hidden: Option<bool>,
    description: Option<string>,
    required: Option<bool>
  )

  /** `descriptor.split(',')`. */
  function OptionNames(descriptor: string): (names: seq<string>)
    ensures |names| >= 1
  {
    Split(descriptor, ",")
  }

  /** `definition`: the names, no `--name=value` binding, no argument. */
  function Definition(descriptor: string, opts: CounterOpts): (d: OptionDefinition)
    ensures d.arity == 0 && !d.allowBinding
    ensures Join(d.names, ",") == descriptor
    ensures forall k :: 0 <= k < |d.names| ==> ',' !in d.names[k]
  {
    JoinSplit(descriptor, ",");
    SplitPiecesAvoidSeparator(descriptor, ',');
    OptionDefinition(OptionNames(descriptor), false, 0, opts.hidden, opts.description, opts.required)
  }

  /** `new Set(optNames)`. */
  function NameSet(descriptor: string): set<string>
  {
    set k | 0 <= k < |OptionNames(descriptor)| :: OptionNames(descriptor)[k]
  }

  /** The values of the options whose name is in `names`, in order. */
  function Matching(names: set<string>, options: seq<ParsedOption>): seq<bool>
  {
    if options == [] then []
    else
      var last := options[|options| - 1];
      Matching(names, options[..|options| - 1]) + (if last.name in names then [last.value] else [])
  }

  /** One matching option: a missing value counts as 0, a negation resets it,
      a plain flag adds one. */
  function Bump(current: Option<int>, value: bool): int
  {
    if !value then 0 else current.GetOr(0) + 1
  }

  /** The counter after the matching values, applied left to right. */
  function Fold(initial: Option<int>, values: seq<bool>): Option<int>
  {
    if values == [] then initial
    else Some(Bump(Fold(initial, values[..|values| - 1]), values[|values| - 1]))
  }

  lemma MatchingStep(names: set<string>, options: seq<ParsedOption>, i: nat)
    requires i < |options|
    ensures Matching(names, options[..i + 1])
         == Matching(names, options[..i]) + (if options[i].name in names then [options[i].value] else [])
  {
    assert options[..i + 1][..i] == options[..i];
  }

  lemma FoldStep(initial: Option<int>, values: seq<bool>, v: bool)
    ensures Fold(initial, values + [v]) == Some(Bump(Fold(initial, values), v))
  {
    assert (values + [v])[..|values|] == values;
  }

  /** `transformer`: a pass over `state.options`, skipping the names not in
      the set. */
  method Transformer(initial: Option<int>, names: set<string>, options: seq<ParsedOption>)
    returns (current: Option<int>)
    ensures current == Fold(initial, Matching(names, options))
  {
    current := initial;
    var i := 0;
    while i < |options|
      invariant 0 <= i <= |options|
      invariant current == Fold(initial, Matching(names, options[..i]))
    {
      var opt := options[i];
      MatchingStep(names, options, i);
      if opt.name in names {
        FoldStep(initial, Matching(names, options[..i]), opt.value);
        ghost var before := current;
        if current.None? {
          current := Some(0);
        }
        if !opt.value {
          current := Some(0);
        } else {
          current := Some(current.value + 1);
        }
        assert current == Some(Bump(before, opt.value));
      } else {
        assert Matching(names, options[..i]) + [] == Matching(names, options[..i]);
      }
      i := i + 1;
    }
    assert options[..|options|] == options;
  }

  /** The index of the last negation, or -1. */
  function LastNegation(values: seq<bool>): (j: int)
    ensures -1 <= j < |values|
    ensures j >= 0 ==> !values[j]
    ensures forall k :: j < k < |values| ==> values[k]
  {
    if values == [] then -1
    else if !values[|values| - 1] then |values| - 1
    else LastNegation(values[..|values| - 1])
  }

  /** The result described directly: the initial value when no option
      matched; after a negation, the plain flags since the last negation;
      otherwise the initial value (0 when absent) plus every plain flag. */
  function CounterValue(initial: Option<int>, values: seq<bool>): Option<int>
  {
    if values == [] then initial
    else if LastNegation(values) == -1 then Some(initial.GetOr(0) + |values|)
    else Some(|values| - LastNegation(values) - 1)
  }

  /** The fold and the direct description agree on every input. */
  lemma {:induction false} FoldIsCounterValue(initial: Option<int>, values: seq<bool>)
    ensures Fold(initial, values) == CounterValue(initial, values)
  {
    if values != [] {
      var prefix := values[..|values| - 1];
      FoldIsCounterValue(initial, prefix);
      if values[|values| - 1] && prefix != [] {
        assert LastNegation(values) == LastNegation(prefix);
      }
    }
  }

  /** Names outside the set are skipped entirely. */
  lemma {:induction false} OnlyMatchingNamesCount(names: set<string>, options: seq<ParsedOption>)
    ensures |Matching(names, options)| <= |options|
    ensures (forall k :: 0 <= k < |options| ==> options[k].name !in names) ==> Matching(names, options) == []
  {
    if options != [] {
      OnlyMatchingNamesCount(names, options[..|options| - 1]);
    }
  }

  /** Once an option matched the counter is a number, never below 0 when the
      initial value was not. */
  lemma ResultIsANumber(initial: Option<int>, values: seq<bool>)
    requires values != []
    requires initial.Some? ==> initial.value >= 0
    ensures CounterValue(initial, values).Some? && CounterValue(initial, values).value >= 0
  {
  }

  /** A name belongs to the set exactly when it is one of the comma-separated
      names of the descriptor. */
  lemma NameSetMembers(descriptor: string, name: string)
    ensures name in NameSet(descriptor) <==> name in OptionNames(descriptor)
  {
    var names := OptionNames(descriptor);
    if name in names {
      var k :| 0 <= k < |names| && names[k] == name;
      assert names[k] in NameSet(descriptor);
    }
  }
}
