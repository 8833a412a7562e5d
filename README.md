# aa argument parser — a Dafny model

`aa` is a small C++ command-line library: a program declares flags
(`flag("-v", "--verbose")`) and value options (`opt<int>("-n")`), hands the
argument vector to `parse`, and reads the handles afterwards. This project
models its argument-parsing engine, the `Parser` class of
`src/include/aa/parser.hpp`, with the descriptor and handle state of
`src/include/aa/options.hpp` and the string helpers of
`src/include/aa/internal.hpp`, and proves what each part does.

Layout, one module per file:

- `internal.dfy` (`Internal`): `startsWith` and `join` as loop methods,
  proved against a prefix test and a recursive join; the join is shown equal
  to an independent "head, then delimiter before each later element"
  definition, with its length.
- `options.dfy` (`Options`): one `Descriptor` record that unites the fields
  the parser uses (aliases, `expectsValue`, `required`, `count`, `metavar`,
  `help` and a single value slot; `hasValue` is "the slot is filled"), the
  fresh-descriptor defaults, `parseValue`, the handle types and the second
  `join` of options.hpp.
- `registry.dfy` (`Registration`): alias classification and the fold done by
  `addData`.
- `dispatch.dfy` (`Dispatch`): the scan of `parse` as pure functions, one per
  branch of the source (`parseLongOption`, the character loop of
  `parseShortOption`, one loop iteration, the whole loop), the required
  check, the error text, and the lemmas about them.
- `help.dfy` (`Help`): the text `printHelp` writes.
- `parser.dfy` (`Parsing`): the class `Parser<V>` with the source's fields.
  Its methods mutate the fields step by step as the C++ does and each is
  proved equal to the pure model.
- `scenarios.dfy` (`Scenarios`): concrete runs. `OptionTypes` is the run
  of tests/tests.cpp; `HelpFlagRegistration`, `HelpFlagItem`,
  `HelpListsEveryAlias` and `RequiredPerAlias` use registrations of
  example/example.cpp; `BundledFlags`, `DoubleDashStopsFlags` and
  `UnknownDoesNotAbort` are small inputs of our own, one per rule of the scan.

Design of the model:

- Descriptors live in an arena `descriptors: seq<Descriptor<V>>` owned by
  the parser. `shortOptions`, `longOptions`, `optionList` and the handles
  (`FlagHandle(id)`, `OptionHandle(id)`) hold indices into it, which plays
  the part of the shared pointers. The handle operations of options.hpp
  (`metavar`, `required`, `help`, `init`, `operator*`) are therefore methods
  and functions of `Parser` that take a handle.
- The conversion from text to the option's type is one function
  `convert: string -> V` given to the parser's constructor.
- The error stream `_errors` is a list of `ParseError` values. `ErrorText`
  renders each one exactly as the stream receives it. `parse` returns
  `Pass`, or `Fail(errors)` where the C++ writes `ErrorsText(errors)` to the
  error stream and throws.
- Nothing is rolled back: after a failed `parse`, counts, values and
  positional arguments keep what the scan did (`Parser.Parse` says so for
  both outcomes).

The model follows the code:

- There is no error for a missing value, none for a value given to a flag
  (`--verbose=x` stores a value in the flag's slot), and none for a
  duplicate alias. `emplace` keeps the first binding.
- An unknown character in a short cluster records one error and abandons
  the rest of the token.
- A value option holds one value; the last one parsed wins.
- The required check looks at `count`, not at the value slot. So `init`
  does not satisfy `required`, and a required option that is matched at the
  end of the input without a value does.
- `addData` appends the descriptor to `optionList` once per alias. So the
  usage line shows an option with two aliases twice, and a missing required
  option with two aliases yields two errors (`Scenarios.HelpListsEveryAlias`,
  `Scenarios.RequiredPerAlias`).

## Model

| member | source | states |
|---|---|---|
| `Internal.StartsWith` | src/include/aa/internal.hpp:11-24 | true iff `prefix` is no longer than `s` and matches it character by character; false whenever `s` is shorter |
| `Internal.Join` | src/include/aa/internal.hpp:26-40 | the loop builds exactly the left-to-right join `Joined(strings, delimiter)` |
| `Internal.JoinedSmall` | src/include/aa/internal.hpp:31-39 | joining nothing gives the empty string; joining one string gives that string |
| `Internal.JoinedIsInterleaved` | src/include/aa/internal.hpp:31-37 | the join equals the reference: first element, then delimiter before each later element, none leading or trailing |
| `Internal.JoinedLength` | src/include/aa/internal.hpp:31-37 | for n ≥ 1 strings the length is the sum of the lengths plus (n−1) delimiter lengths |
| `Internal.JoinedStartsWithHead` | src/include/aa/internal.hpp:31-33 | a non-empty join begins with its first element |
| `Internal.OccurrencesJoined` | src/include/aa/internal.hpp:31-37 | a join contains no character that neither the strings nor the delimiter contain |
| `Options.NewDescriptor` | src/include/aa/options.hpp:34-47 | a fresh descriptor keeps the given aliases and value kind, has count 0, metavar "VALUE", is not required, has empty help and no value |
| `Options.ParseValue` | src/include/aa/options.hpp:51-58 | the slot holds the converted text afterwards and every other field is unchanged |
| `Options.ParseValueLastWins` | src/include/aa/options.hpp:51-58 | two parses in a row leave only the second value: the slot is overwritten, values do not accumulate |
| `Options.JoinLocal` | src/include/aa/options.hpp:19-30 | the anonymous-namespace join yields the same text as `internal::join` for every input |
| `Registration.BindBound` | src/include/aa/parser.hpp:142-151 | registration only binds aliases to the new descriptor, so every index stays in range |
| `Registration.Bind` | src/include/aa/parser.hpp:142-150 | the alias loop only appends to the option list, at most one entry per alias; a reported invalid alias is one of the aliases and was appended before failing |
| `Registration.BindSuccess` | src/include/aa/parser.hpp:142-151 | registration succeeds iff every alias is `-c` (c not `-`) or `--` plus text; then each short alias is bound under its character and each long alias under itself, to its earlier binding if any, else to the new descriptor; no earlier binding changes; the option list grows by one copy per alias |
| `Registration.BindKeys` | src/include/aa/parser.hpp:142-150 | registration adds no key to either map other than the short aliases' characters and the long aliases; on success the key sets are exactly the old keys plus those |
| `Registration.FirstInvalid` | src/include/aa/parser.hpp:142-150 | the position of the first alias that is neither `-c` nor `--text`: every alias before it is valid, and it is not |
| `Registration.BindFailure` | src/include/aa/parser.hpp:142-150 | registration fails iff some alias is invalid; it then names the first invalid alias, the option list holds one entry per alias up to and including it, and the maps are exactly those the valid aliases before it produce |
| `Registration.Repeat` | src/include/aa/parser.hpp:142-143 | n copies of the descriptor index, as appended per alias |
| `Dispatch.ErrorText` | src/include/aa/parser.hpp:76-77 | every error message is non-empty and ends with a newline |
| `Dispatch.ErrorsText` | src/include/aa/parser.hpp:81-85 | the accumulated text has at least one character per error and ends with a newline when there is an error |
| `Dispatch.ErrorsTextEmpty` | src/include/aa/parser.hpp:81-85 | the accumulated error text is empty iff no error was recorded |
| `Dispatch.FindChar` | src/include/aa/parser.hpp:159-160 | the index of the first `=` (no `=` before it), or the length when there is none |
| `Dispatch.Counted` | src/include/aa/parser.hpp:171 | matching raises the count by exactly one and changes no other field |
| `Dispatch.IsPositional` | src/include/aa/parser.hpp:60-70 | a token is stored as positional while flags are processed iff it is empty, does not start with `-`, or is `-` alone; such a token is never an alias |
| `Dispatch.LongOption` | src/include/aa/parser.hpp:156-182 | a long option consumes one or two tokens, never past the end, and leaves the positional arguments alone |
| `Dispatch.ShortCluster` | src/include/aa/parser.hpp:184-214 | a short cluster consumes one or two tokens, never past the end, and leaves the positional arguments alone |
| `Dispatch.Step` | src/include/aa/parser.hpp:59-72 | every iteration of the parse loop advances by 1 or 2 tokens and keeps the descriptor arena's size; once `--` was seen flags stay off |
| `Dispatch.Run` | src/include/aa/parser.hpp:59-72 | the scan terminates and keeps the descriptor arena's size |
| `Dispatch.RequiredErrorsExact` | src/include/aa/parser.hpp:74-79 | the number of "required" errors equals the number of option-list entries that are required with count 0, and each names the aliases of such a descriptor |
| `Dispatch.RequiredErrors` | src/include/aa/parser.hpp:74-79 | at most one error per option-list entry, and every one is a "required" error |
| `Dispatch.RequiredErrorsSingle` | src/include/aa/parser.hpp:75-78 | one entry yields one error naming its aliases if it is required with count 0, and none otherwise |
| `Dispatch.RequiredErrorsAppend` | src/include/aa/parser.hpp:74-79 | the errors follow the option list: checking two concatenated lists reports the first list's errors, then the second's; with the single-entry lemma this fixes every error and its order |
| `Dispatch.RunUnprocessed` | src/include/aa/parser.hpp:60-61 | with flags off, every remaining token is appended verbatim and in order to the positional arguments; descriptors and errors do not change |
| `Dispatch.RunAfterDoubleDash` | src/include/aa/parser.hpp:62-64 | a bare `--` is consumed and not stored; all later tokens become positional and no descriptor changes |
| `Dispatch.StepPositional` | src/include/aa/parser.hpp:65-70 | with flags on, a token without a leading `-`, or `-` alone, is appended unchanged and consumes one position; every other token leaves the positional arguments alone |
| `Dispatch.LongOptionEffect` | src/include/aa/parser.hpp:159-181 | key is the text before the first `=`; an unknown key adds one "unknown option" error and consumes one token; a known key raises its count by 1, changes no other descriptor, takes the text after `=`, else the next token if any (two consumed), else no value and no error |
| `Dispatch.BumpCounts` | src/include/aa/parser.hpp:196-198 | counting a run of cluster characters raises each descriptor's count by the number of its characters and changes nothing else |
| `Dispatch.ClusterSkipsFlags` | src/include/aa/parser.hpp:187-211 | a run of known flag characters is walked in order, counting each one |
| `Dispatch.ClusterOfFlags` | src/include/aa/parser.hpp:187-213 | a cluster of known flags counts each character, records no error and consumes one token |
| `Dispatch.ClusterStopsAtUnknown` | src/include/aa/parser.hpp:190-195 | an unknown character after known flags adds one error naming it and the token and abandons the rest of the token |
| `Dispatch.ClusterEndsAtValue` | src/include/aa/parser.hpp:198-210 | the first value-taking character is counted and takes the rest of the token, else the next token (two consumed), else nothing without error; the cluster ends there |
| `Dispatch.RunExtends` | src/include/aa/parser.hpp:59-72 | the scan only appends to the errors and positional arguments; nothing recorded is undone |
| `Dispatch.StepExtends` | src/include/aa/parser.hpp:60-70 | one iteration only appends to the errors and positional arguments |
| `Dispatch.ClusterExtends` | src/include/aa/parser.hpp:187-213 | a cluster only appends to the errors |
| `Help.UsageItemsAppend` | src/include/aa/parser.hpp:91-105 | the usage line lists the option-list entries in order: rendering a concatenated list is rendering each part in turn |
| `Help.OptionLinesAppend` | src/include/aa/parser.hpp:109-112 | the options block lists the entries in the same order |
| `Help.UsageItemsStep` | src/include/aa/parser.hpp:94-104 | each entry adds a space and its usage item after the earlier ones |
| `Help.OptionLinesStep` | src/include/aa/parser.hpp:110-111 | each entry adds its help line after the earlier ones |
| `Help.UsageItemBrackets` | src/include/aa/parser.hpp:92-104 | an item is wrapped in `[` … `]` iff the option is not required; a required item starts with the `|`-joined aliases |
| `Help.HelpLineCount` | src/include/aa/parser.hpp:88-113 | without embedded line breaks, the help text has exactly entries + 2 lines: usage, `options:`, one per entry |
| `Help.UsageItem` | src/include/aa/parser.hpp:94-104 | an optional item is at least two characters, opens with `[` and closes with `]`; an item with a value has room for a space and the metavar |
| `Help.UsageItems` | src/include/aa/parser.hpp:91-105 | at least one character (the separating space) per entry |
| `Help.OptionLine` | src/include/aa/parser.hpp:110-111 | a line starts with two spaces, is at least four characters and ends with a newline |
| `Help.OptionLines` | src/include/aa/parser.hpp:109-112 | at least four characters per entry |
| `Help.HelpText` | src/include/aa/parser.hpp:88-113 | the text starts with `usage: ` and the program name and has at least 17 fixed characters plus five per entry |
| `Help.UsageItemLineFree` | src/include/aa/parser.hpp:94-104 | an item holds no line break when its aliases and metavar hold none |
| `Help.OptionLineBreak` | src/include/aa/parser.hpp:110-111 | a line holds exactly one line break, its last, when its aliases and help hold none |
| `Parsing.Parser.constructor` | src/include/aa/parser.hpp:220-226 | a new parser is named "PROGRAM" and has no aliases, entries, arguments or errors |
| `Parsing.Parser.AddData` | src/include/aa/parser.hpp:134-154 | appends one fresh descriptor with the defaults, then maps and option list become the result of the alias fold; an invalid alias fails with its name after the earlier bindings are made |
| `Parsing.Parser.Flag` | src/include/aa/parser.hpp:21-29 | registers a descriptor that takes no value and returns its handle, or the registration error |
| `Parsing.Parser.Opt` | src/include/aa/parser.hpp:31-40 | registers a descriptor that takes a value and returns its handle, or the registration error |
| `Parsing.Parser.ParseLongOption` | src/include/aa/parser.hpp:156-182 | the in-place updates and the returned position are exactly those of the long-option model |
| `Parsing.Parser.ParseShortOption` | src/include/aa/parser.hpp:184-214 | the character loop with its early returns computes exactly the cluster model |
| `Parsing.Parser.Parse` | src/include/aa/parser.hpp:55-86 | descriptors and positional arguments end as the scan leaves them, whether or not the call fails; the required errors follow the scan errors; the call fails iff an error was recorded, reporting all of them; the error stream is emptied; registration is untouched |
| `Parsing.Parser.ParseArgv` | src/include/aa/parser.hpp:42-53 | the first element, if any, becomes the program name and the rest is parsed |
| `Parsing.Parser.PrintHelp` | src/include/aa/parser.hpp:88-113 | the streamed text is the help text: usage line with one item per entry, then `options:` and one line per entry |
| `Parsing.Parser.WriteUsageItem` | src/include/aa/parser.hpp:92-104 | the piecewise output of one entry is its usage item |
| `Parsing.Parser.WriteUsageItems` | src/include/aa/parser.hpp:91-105 | the loop over the option list writes a space and the usage item of each entry, in order |
| `Parsing.Parser.WriteOptionLines` | src/include/aa/parser.hpp:108-112 | the loop over the option list writes the help line of each entry, in order |
| `Parsing.Parser.GetProgramName` | src/include/aa/parser.hpp:115-118 | returns the stored program name |
| `Parsing.Parser.SetProgramName` | src/include/aa/parser.hpp:120-123 | stores the program name |
| `Parsing.Parser.Metavar` | src/include/aa/options.hpp:70-74 | changes only the metavar of the shared descriptor and returns a handle to the same descriptor |
| `Parsing.Parser.Required` | src/include/aa/options.hpp:76-80 | changes only `required` of the shared descriptor and returns the same handle |
| `Parsing.Parser.Help` | src/include/aa/options.hpp:82-86 | changes only the help text of the shared descriptor and returns the same handle |
| `Parsing.Parser.FlagHelp` | src/include/aa/options.hpp:129-133 | changes only the help text of a flag's descriptor and returns the same handle |
| `Parsing.Parser.Init` | src/include/aa/options.hpp:88-93 | fills the value slot with `x`, changes nothing else, returns the same handle |
| `Parsing.Parser.Get` | src/include/aa/options.hpp:95-111 | reading an option fails with the "value not set" error iff its slot is empty, and otherwise returns the stored value |
| `Parsing.Parser.Count` | src/include/aa/options.hpp:135-143 | reading a flag gives how often it was matched |
| `Scenarios.OptionTypes` | tests/tests.cpp:18-34 | `-i 10 -f 1.5 -s abc` gives each option the conversion of its token, no positional argument, no error |
| `Scenarios.BundledFlags` | src/include/aa/parser.hpp:187-213 | `-abc` against flags `-a -b -c` counts each once |
| `Scenarios.DoubleDashStopsFlags` | src/include/aa/parser.hpp:60-64 | `-- -x` leaves flag `-x` unmatched and stores `-x` as positional |
| `Scenarios.UnknownDoesNotAbort` | src/include/aa/parser.hpp:162-166 | `--bogus -i 5` reports one unknown option and still gives `-i` its value |
| `Scenarios.HelpFlagRegistration` | example/example.cpp:8-9 | registering `-h`/`--help` binds `h` and `--help` to the one descriptor and puts it on the option list twice |
| `Scenarios.HelpFlagItem` | example/example.cpp:8-9 | the usage item of the optional flag `-h`/`--help` is `[-h|--help]` |
| `Scenarios.HelpListsEveryAlias` | src/include/aa/parser.hpp:91-105 | with its two option-list entries, the usage line shows `[-h|--help]` twice |
| `Scenarios.RequiredPerAlias` | example/example.cpp:12-15 | the required `-m`/`--message`, never given, yields two "required" errors, one per alias |

## Left out

- Text-to-value conversion (`std::istringstream >>`, src/include/aa/options.hpp:53-55 and `fromString` in internal.hpp) is the parameter `convert`. Malformed input and stream failure are not modelled. One value type `V` stands for every option's `T`.
- Writing the error text to `std::cerr` is output only. `parse` returns the error list instead, and `ErrorsText` gives the text.
- The message formatting of `Error` (source location, `std::format`) is left out. src/error.cpp and src/include/aa/error.hpp are not part of this model. Failures are plain values: `RegistrationError`, `UsageError` and `Outcome.Fail`.
- The process-wide parser `internal::parser()`, the free functions `aa::parse`, `aa::printHelp`, `aa::flag`, `aa::opt` and src/parser.cpp only forward to one parser instance.
- `breakers` / `_breakers` and the empty `checkRestrictions` are left out. The set is never read.
- Compile-time code is left out: `conjunction`, the `enable_if` guards and the `std::formatter` specialisation. So are `operator->`, the implicit conversions to `const T&` and `int` (both equal to `Get` and `Count`), and `operator<<` on options.
- Handles built from a null pointer are not modelled. Each handle operation requires a handle returned by this parser.
- Strings are sequences of Unicode characters, but `std::string` counts bytes. So a non-ASCII alias or cluster character is classified and reported differently. `Registration.IsShortAlias`, `Registration.IsLongAlias`, `Registration.Bind`, `Dispatch.ShortCluster` and `Dispatch.ErrorText` treat `-é` as one short alias and look up and report `é` as one character. The source sees three bytes, rejects `-é` as an invalid alias and looks up each byte of a cluster. The model is exact for ASCII text.
- `count` is an unbounded integer. The wrap-around of the C++ `int` after 2^31 matches is not modelled.
- Flags and value options share one descriptor record. A flag matched as `--name=text` or followed by a token via the long path stores a value in its slot, which the source's flag type never exposes.
- The example program and the test file are usage, not logic. `Scenarios` restates the run of tests/tests.cpp and three facts about registrations of example/example.cpp.
- `Dispatch.Run`: its own contract states only termination and the arena size; what the scan does is stated by the lemmas about it and by `Parsing.Parser.Parse`.
