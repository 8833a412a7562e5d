/** The descriptor record and handles of src/include/aa/options.hpp.

    One `Descriptor` unites the fields the parser uses of `FlagData`,
    `OptionDataBase` and `OptionData<T>`. Descriptors are stored in the
    parser's arena and handles refer to them by index, so the shared
    pointer of the source becomes a shared index. */
module Options {
  import opened Internal

  datatype Option<T> = None | Some(value: T)

  datatype Result<T, E> = Success(value: T) | Failure(error: E)

  /** The placeholder shown for a value when no metavar was set. */
  const DefaultMetavar: string := "VALUE"

  /** A registered flag or option: its aliases, whether it takes a value,
      its help-text settings, how often it was matched and its single value
      slot. `V` is the value type produced by the parser's conversion. */
  datatype Descriptor<V> = Descriptor(
    flags: seq<string>,
    expectsValue: bool,
    required: bool,
    count: int,
    metavar: string,
    help: string,
    value: Option<V>)
  {
    /** `hasValue` of the source: the value slot is filled. */
    predicate HasValue() { value.Some? }
  }

  /** A descriptor as `addData` creates it, with the member defaults: it
      keeps the given aliases and value kind, shows "VALUE", is optional, has
      no help, no value and a zero count. */
  function NewDescriptor<V>(flags: seq<string>, expectsValue: bool): (d: Descriptor<V>)
    ensures d.flags == flags && d.expectsValue == expectsValue
    ensures d.metavar == "VALUE" && !d.required && d.help == ""
    ensures !d.HasValue() && d.count == 0
  {
    Descriptor(flags, expectsValue, false, 0, DefaultMetavar, "", None)
  }

  /** Handle returned by `flag(...)`. */
  datatype FlagHandle = FlagHandle(id: nat)

  /** Handle returned by `opt<T>(...)`. */
  datatype OptionHandle = OptionHandle(id: nat)

  /** The `Error` thrown when an option without a value is read. */
  datatype UsageError = ValueNotSet

  /** `OptionData<T>::parseValue`: the converted text replaces whatever the
      single value slot held; no other field changes. */
  function ParseValue<V>(d: Descriptor<V>, text: string, convert: string -> V): (r: Descriptor<V>)
    ensures r.HasValue() && r.value.value == convert(text)
    ensures r.(value := d.value) == d
  {
    d.(value := Some(convert(text)))
  }

  /** Values do not accumulate: only the last parsed text is kept. */
  lemma ParseValueLastWins<V>(d: Descriptor<V>, first: string, second: string, convert: string -> V)
    ensures ParseValue(ParseValue(d, first, convert), second, convert) == ParseValue(d, second, convert)
  {
  }

  /** The `join` of the anonymous namespace in options.hpp, a second copy
      of `internal::join`; it agrees with it on every input. */
  method JoinLocal(strings: seq<string>, delimiter: string) returns (r: string)
    ensures r == Joined(strings, delimiter)
  {
    r := "";
    if |strings| != 0 {
      r := strings[0];
      var it := 1;
      while it != |strings|
        invariant 1 <= it <= |strings|
        invariant r == Joined(strings[..it], delimiter)
        decreases |strings| - it
      {
        assert strings[..it + 1][..it] == strings[..it];
        r := r + delimiter + strings[it];
        it := it + 1;
      }
      assert strings[..it] == strings;
    }
  }
}
