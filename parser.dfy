/** The `Parser` class of src/include/aa/parser.hpp, with the handle
    operations of src/include/aa/options.hpp that read and write the
    descriptors it owns. Every method is proved against the pure model in
    registry.dfy, dispatch.dfy and help.dfy. */
module Parsing {
  import opened Internal
  import opened Options
  import opened Registration
  import opened Dispatch
  import opened Help

  /** How `parse` ends: normally, or by throwing after the accumulated error
      text (`ErrorsText(errors)`) was written to the error stream. */
  datatype Outcome = Pass | Fail(errors: seq<ParseError>)

  /** The outcome for the errors accumulated by one `parse` call. */
  function OutcomeOf(errors: seq<ParseError>): Outcome
  {
    if ErrorsText(errors) == "" then Pass else Fail(errors)
  }

  /** The default program name. */
  const DefaultProgramName: string := "PROGRAM"

  class Parser<V> {
    /** Conversion of value text to `V` (`stream >> x` in the source). */
    const convert: string -> V

    var programName: string
    /** Positional arguments collected so far (`_args`). */
    var args: seq<string>
    var shortOptions: map<char, nat>
    var longOptions: map<string, nat>
    /** One entry per registered alias, in registration order. */
    var optionList: seq<nat>
    /** Text of `_errors`, as a list of errors. */
    var errors: seq<ParseError>
    /** The descriptor arena; maps, list and handles hold indices into it. */
    var descriptors: seq<Descriptor<V>>

    ghost predicate Valid()
      reads this
    {
      Bound(Reg(), |descriptors|) && ListBound(optionList, |descriptors|)
    }

    function Reg(): Registry
      reads this
    {
      Registry(shortOptions, longOptions)
    }

    function State(): ScanState<V>
      reads this
    {
      ScanState(descriptors, args, errors)
    }

    constructor (convert: string -> V)
      ensures Valid() && this.convert == convert
      ensures programName == DefaultProgramName && args == [] && errors == []
      ensures shortOptions == map[] && longOptions == map[] && optionList == [] && descriptors == []
    {
      this.convert := convert;
      programName := DefaultProgramName;
      args := [];
      shortOptions := map[];
      longOptions := map[];
      optionList := [];
      errors := [];
      descriptors := [];
    }

    /** `addData`: creates a fresh descriptor and binds its aliases; an alias
        that is neither short nor long fails registration at that point,
        leaving what was already registered in place. */
    method AddData(expectsValue: bool, names: seq<string>) returns (r: Result<nat, RegistrationError>)
      requires Valid()
      modifies this
      ensures Valid()
      ensures descriptors == old(descriptors) + [NewDescriptor(names, expectsValue)]
      ensures var b := Bind(old(Reg()), old(optionList), |old(descriptors)|, names);
        && Reg() == b.reg && optionList == b.list
        && r == (if b.invalid.Some? then Failure(InvalidOption(b.invalid.value)) else Success(|old(descriptors)|))
      ensures programName == old(programName) && args == old(args) && errors == old(errors)
    {
      var id := |descriptors|;
      descriptors := descriptors + [NewDescriptor(names, expectsValue)];
      BindBound(Reg(), optionList, id, names, |descriptors|);
      var k := 0;
      while k < |names|
        invariant 0 <= k <= |names|
        invariant descriptors == old(descriptors) + [NewDescriptor(names, expectsValue)]
        invariant Bound(Reg(), |descriptors|) && ListBound(optionList, |descriptors|)
        invariant Bind(Reg(), optionList, id, names[k..]) == Bind(old(Reg()), old(optionList), id, names)
        invariant programName == old(programName) && args == old(args) && errors == old(errors)
      {
        var flag := names[k];
        assert names[k..][0] == flag && names[k..][1..] == names[k + 1..];
        optionList := optionList + [id];
        if |flag| == 2 && flag[0] == '-' && flag[1] != '-' {
          if flag[1] !in shortOptions {
            shortOptions := shortOptions[flag[1] := id];
          }
        } else {
          var isLong := false;
          if |flag| > 2 {
            isLong := StartsWith(flag, "--");
          }
          if isLong {
            if flag !in longOptions {
              longOptions := longOptions[flag := id];
            }
          } else {
            return Failure(InvalidOption(flag));
          }
        }
        k := k + 1;
      }
      return Success(id);
    }

    /** `flag(names...)`: registers a descriptor that takes no value. */
    method Flag(names: seq<string>) returns (r: Result<FlagHandle, RegistrationError>)
      requires Valid()
      modifies this
      ensures Valid()
      ensures descriptors == old(descriptors) + [NewDescriptor(names, false)]
      ensures var b := Bind(old(Reg()), old(optionList), |old(descriptors)|, names);
        && Reg() == b.reg && optionList == b.list
        && r == (if b.invalid.Some? then Failure(InvalidOption(b.invalid.value)) else Success(FlagHandle(|old(descriptors)|)))
      ensures programName == old(programName) && args == old(args) && errors == old(errors)
    {
      var added := AddData(false, names);
      r := if added.Success? then Success(FlagHandle(added.value)) else Failure(added.error);
    }

    /** `opt<T>(names...)`: registers a descriptor that takes a value. */
    method Opt(names: seq<string>) returns (r: Result<OptionHandle, RegistrationError>)
      requires Valid()
      modifies this
      ensures Valid()
      ensures descriptors == old(descriptors) + [NewDescriptor(names, true)]
      ensures var b := Bind(old(Reg()), old(optionList), |old(descriptors)|, names);
        && Reg() == b.reg && optionList == b.list
        && r == (if b.invalid.Some? then Failure(InvalidOption(b.invalid.value)) else Success(OptionHandle(|old(descriptors)|)))
      ensures programName == old(programName) && args == old(args) && errors == old(errors)
    {
      var added := AddData(true, names);
      r := if added.Success? then Success(OptionHandle(added.value)) else Failure(added.error);
    }

    /** `parseLongOption` on `tokens[i]`; returns the next position. */
    method ParseLongOption(tokens: seq<string>, i: nat) returns (next: nat)
      requires Valid() && i < |tokens|
      modifies this`descriptors, this`errors
      ensures Valid()
      ensures Advance(State(), next) == LongOption(Reg(), convert, old(State()), tokens, i)
    {
      var token := tokens[i];
      var equ := FindChar(token, '=');
      var key := token[..equ];
      if key !in longOptions {
        errors := errors + [UnknownLong(key)];
        return i + 1;
      }
      var id := longOptions[key];
      descriptors := descriptors[id := descriptors[id].(count := descriptors[id].count + 1)];
      if equ < |token| {
        descriptors := descriptors[id := ParseValue(descriptors[id], token[equ + 1..], convert)];
      }
      next := i + 1;
      if equ == |token| && next < |tokens| {
        descriptors := descriptors[id := ParseValue(descriptors[id], tokens[next], convert)];
        next := next + 1;
      }
    }

    /** `parseShortOption` on `tokens[i]`; returns the next position. */
    method ParseShortOption(tokens: seq<string>, i: nat) returns (next: nat)
      requires Valid() && i < |tokens|
      modifies this`descriptors, this`errors
      ensures Valid()
      ensures Advance(State(), next) == ShortCluster(Reg(), convert, old(State()), tokens, i, 1)
    {
      var token := tokens[i];
      var k := 1;
      while k < |token|
        invariant 1 <= k
        invariant Valid() && |descriptors| == old(|descriptors|)
        invariant ShortCluster(Reg(), convert, State(), tokens, i, k) == ShortCluster(Reg(), convert, old(State()), tokens, i, 1)
        decreases |token| - k
      {
        var key := token[k];
        if key !in shortOptions {
          errors := errors + [UnknownShort(key, token)];
          return i + 1;
        }
        var id := shortOptions[key];
        descriptors := descriptors[id := descriptors[id].(count := descriptors[id].count + 1)];
        if descriptors[id].expectsValue && k + 1 < |token| {
          descriptors := descriptors[id := ParseValue(descriptors[id], token[k + 1..], convert)];
          return i + 1;
        }
        if descriptors[id].expectsValue {
          next := i + 1;
          if next < |tokens| {
            descriptors := descriptors[id := ParseValue(descriptors[id], tokens[next], convert)];
            next := next + 1;
          }
          return;
        }
        k := k + 1;
      }
      return i + 1;
    }

    /** `parse(args)`: the scan, then the required check. The descriptors
        and positional arguments keep what the scan did whether or not the
        call fails; the error stream is emptied. */
    method Parse(tokens: seq<string>) returns (outcome: Outcome)
      requires Valid()
      modifies this
      ensures Valid()
      ensures Reg() == old(Reg()) && optionList == old(optionList) && programName == old(programName)
      ensures var st := Run(old(Reg()), convert, old(State()), tokens, 0, true);
        descriptors == st.descs && args == st.args && errors == []
      ensures var all := Run(old(Reg()), convert, old(State()), tokens, 0, true).errors
                         + RequiredErrors(descriptors, optionList);
        && outcome == OutcomeOf(all)
        && (outcome.Pass? <==> all == [])
    {
      var processingFlags := true;
      var i := 0;
      while i < |tokens|
        invariant 0 <= i <= |tokens|
        invariant Valid() && Reg() == old(Reg()) && optionList == old(optionList) && programName == old(programName)
        invariant Run(Reg(), convert, State(), tokens, i, processingFlags) == Run(Reg(), convert, old(State()), tokens, 0, true)
        decreases |tokens| - i
      {
        var token := tokens[i];
        if !processingFlags {
          args := args + [token];
          i := i + 1;
        } else if token == "--" {
          processingFlags := false;
          i := i + 1;
        } else {
          var isLong := false;
          if |token| > 2 {
            isLong := StartsWith(token, "--");
          }
          if isLong {
            i := ParseLongOption(tokens, i);
          } else {
            var isShort := false;
            if |token| > 1 {
              isShort := StartsWith(token, "-");
            }
            if isShort {
              i := ParseShortOption(tokens, i);
            } else {
              args := args + [token];
              i := i + 1;
            }
          }
        }
      }
      ghost var scanned := errors;
      var k := 0;
      while k < |optionList|
        invariant 0 <= k <= |optionList|
        invariant Valid() && Reg() == old(Reg()) && optionList == old(optionList) && programName == old(programName)
        invariant State() == Run(old(Reg()), convert, old(State()), tokens, 0, true).(errors := errors)
        invariant errors == scanned + RequiredErrors(descriptors, optionList[..k])
      {
        assert optionList[..k + 1][..k] == optionList[..k];
        var d := descriptors[optionList[k]];
        if d.required && d.count == 0 {
          errors := errors + [MissingRequired(d.flags)];
        }
        k := k + 1;
      }
      assert optionList[..k] == optionList;
      var all := errors;
      errors := [];
      ErrorsTextEmpty(all);
      if ErrorsText(all) != "" {
        outcome := Fail(all);
      } else {
        outcome := Pass;
      }
    }

    /** `parse(argc, argv)`: the first element, if any, becomes the program
        name and the rest is parsed. */
    method ParseArgv(argv: seq<string>) returns (outcome: Outcome)
      requires Valid()
      modifies this
      ensures Valid()
      ensures programName == if |argv| >= 1 then argv[0] else old(programName)
      ensures Reg() == old(Reg()) && optionList == old(optionList)
      ensures var tokens := if |argv| >= 1 then argv[1..] else [];
        var st := Run(old(Reg()), convert, old(State()), tokens, 0, true);
        descriptors == st.descs && args == st.args && errors == []
      ensures var tokens := if |argv| >= 1 then argv[1..] else [];
        var all := Run(old(Reg()), convert, old(State()), tokens, 0, true).errors
                   + RequiredErrors(descriptors, optionList);
        outcome == OutcomeOf(all)
    {
      if |argv| >= 1 {
        programName := argv[0];
      }
      var tokens := if |argv| >= 1 then argv[1..] else [];
      outcome := Parse(tokens);
    }

    /** `printHelp`: the text written to the output stream. */
    method PrintHelp() returns (out: string)
      requires Valid()
      ensures out == HelpText(programName, descriptors, optionList)
    {
      var items := WriteUsageItems(descriptors, optionList);
      var lines := WriteOptionLines(descriptors, optionList);
      out := "usage: " + programName + items + "\n" + "options:\n" + lines;
    }

    /** The usage items of `printHelp`, one per option-list entry. */
    static method WriteUsageItems(descs: seq<Descriptor<V>>, list: seq<nat>) returns (out: string)
      requires ListBound(list, |descs|)
      ensures out == UsageItems(descs, list)
    {
      out := "";
      var k := 0;
      while k < |list|
        invariant 0 <= k <= |list|
        invariant out == UsageItems(descs, list[..k])
      {
        var item := WriteUsageItem(descs[list[k]]);
        UsageItemsStep(descs, list, k);
        out := out + " " + item;
        k := k + 1;
      }
      assert list[..k] == list;
    }

    /** The options block of `printHelp`, one line per option-list entry. */
    static method WriteOptionLines(descs: seq<Descriptor<V>>, list: seq<nat>) returns (out: string)
      requires ListBound(list, |descs|)
      ensures out == OptionLines(descs, list)
    {
      out := "";
      var k := 0;
      while k < |list|
        invariant 0 <= k <= |list|
        invariant out == OptionLines(descs, list[..k])
      {
        OptionLinesStep(descs, list, k);
        var option := descs[list[k]];
        var aliases := Join(option.flags, ", ");
        out := out + "  " + aliases + " " + option.help + "\n";
        k := k + 1;
      }
      assert list[..k] == list;
    }

    /** One usage item, streamed piece by piece as in `printHelp`. */
    static method WriteUsageItem(option: Descriptor<V>) returns (item: string)
      ensures item == UsageItem(option)
    {
      var required := option.required;
      item := "";
      if !required {
        item := item + "[";
      }
      var aliases := Join(option.flags, "|");
      item := item + aliases;
      if option.expectsValue {
        item := item + " " + option.metavar;
      }
      if !required {
        item := item + "]";
      }
    }

    /** `programName()`. */
    function GetProgramName(): (name: string)
      reads this
      ensures name == programName
    {
      programName
    }

    /** `programName(name)`. */
    method SetProgramName(name: string)
      modifies this`programName
      ensures programName == name
    {
      programName := name;
    }

    /** `Option::metavar`: sets the metavar of the shared descriptor only and
        returns a handle to the same descriptor. */
    method Metavar(h: OptionHandle, name: string) returns (same: OptionHandle)
      requires Valid() && h.id < |descriptors|
      modifies this`descriptors
      ensures Valid() && same == h
      ensures descriptors == old(descriptors)[h.id := old(descriptors)[h.id].(metavar := name)]
    {
      descriptors := descriptors[h.id := descriptors[h.id].(metavar := name)];
      same := h;
    }

    /** `Option::required`: marks the shared descriptor required, nothing else. */
    method Required(h: OptionHandle) returns (same: OptionHandle)
      requires Valid() && h.id < |descriptors|
      modifies this`descriptors
      ensures Valid() && same == h
      ensures descriptors == old(descriptors)[h.id := old(descriptors)[h.id].(required := true)]
    {
      descriptors := descriptors[h.id := descriptors[h.id].(required := true)];
      same := h;
    }

    /** `Option::help`: sets the help text of the shared descriptor only. */
    method Help(h: OptionHandle, message: string) returns (same: OptionHandle)
      requires Valid() && h.id < |descriptors|
      modifies this`descriptors
      ensures Valid() && same == h
      ensures descriptors == old(descriptors)[h.id := old(descriptors)[h.id].(help := message)]
    {
      descriptors := descriptors[h.id := descriptors[h.id].(help := message)];
      same := h;
    }

    /** `Flag::help`: sets the help text of the shared descriptor only. */
    method FlagHelp(h: FlagHandle, message: string) returns (same: FlagHandle)
      requires Valid() && h.id < |descriptors|
      modifies this`descriptors
      ensures Valid() && same == h
      ensures descriptors == old(descriptors)[h.id := old(descriptors)[h.id].(help := message)]
    {
      descriptors := descriptors[h.id := descriptors[h.id].(help := message)];
      same := h;
    }

    /** `Option::init`: stores `x` in the value slot, nothing else. */
    method Init(h: OptionHandle, x: V) returns (same: OptionHandle)
      requires Valid() && h.id < |descriptors|
      modifies this`descriptors
      ensures Valid() && same == h
      ensures descriptors == old(descriptors)[h.id := old(descriptors)[h.id].(value := Some(x))]
      ensures descriptors[h.id].HasValue() && descriptors[h.id].value.value == x
    {
      descriptors := descriptors[h.id := descriptors[h.id].(value := Some(x))];
      same := h;
    }

    /** `Option::operator*`: the stored value, or the `Error` thrown when the
        slot is empty. */
    function Get(h: OptionHandle): (r: Result<V, UsageError>)
      reads this
      requires h.id < |descriptors|
      ensures r.Success? <==> descriptors[h.id].HasValue()
      ensures r.Success? ==> descriptors[h.id].value == Some(r.value)
    {
      match descriptors[h.id].value
      case None => Failure(ValueNotSet)
      case Some(x) => Success(x)
    }

    /** `Flag::operator*`: how often the flag was matched. */
    function Count(h: FlagHandle): (n: int)
      reads this
      requires h.id < |descriptors|
      ensures n == descriptors[h.id].count
    {
      descriptors[h.id].count
    }
  }
}
