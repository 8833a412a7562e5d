/** The tokenizer/dispatcher of `Parser::parse` (src/include/aa/parser.hpp)
    as pure functions over the parse state: one function per branch of the
    source (`parseLongOption`, the character loop of `parseShortOption`,
    one iteration of the loop in `parse`), the whole scan, and the
    required-option check. The class in parser.dfy is proved against them. */
module Dispatch {
  import opened Internal
  import opened Options
  import opened Registration

  /** The messages `parse` writes to its error stream. */
  datatype ParseError =
    | UnknownLong(key: string)
    | UnknownShort(character: char, token: string)
    | MissingRequired(flags: seq<string>)

  /** Text of one error, as streamed to `_errors`. */
  function ErrorText(e: ParseError): (t: string)
    ensures |t| > 0 && t[|t| - 1] == '\n'
  {
    match e
    case UnknownLong(key) => "unknown option: " + key + "\n"
    case UnknownShort(key, token) => "unknown option: -" + [key] + " in " + token + "\n"
    case MissingRequired(flags) => "option " + Joined(flags, ",") + " is required, but not provided\n"
  }

  /** All accumulated error text, in discovery order. */
  function ErrorsText(errors: seq<ParseError>): (t: string)
    ensures |t| >= |errors|
    ensures errors != [] ==> t[|t| - 1] == '\n'
  {
    if errors == [] then "" else ErrorsText(errors[..|errors| - 1]) + ErrorText(errors[|errors| - 1])
  }

  /** The error text is empty exactly when no error was recorded, so `parse`
      fails iff some error was recorded. */
  lemma ErrorsTextEmpty(errors: seq<ParseError>)
    ensures ErrorsText(errors) == "" <==> errors == []
  {
    if errors != [] {
      var t := ErrorText(errors[|errors| - 1]);
      assert |ErrorsText(errors)| >= |t| > 0;
    }
  }

  /** What the scan changes: the descriptors, the positional arguments
      (`_args`) and the accumulated errors (`_errors`). */
  datatype ScanState<V> = ScanState(descs: seq<Descriptor<V>>, args: seq<string>, errors: seq<ParseError>)

  /** State after handling a token, and the position of the next token. */
  datatype Advance<V> = Advance(state: ScanState<V>, next: nat)

  /** One iteration of the loop of `parse`, which may also switch off flag
      processing. */
  datatype Stepped<V> = Stepped(state: ScanState<V>, next: nat, processing: bool)

  /** `option->count++`. */
  function Counted<V>(d: Descriptor<V>): (r: Descriptor<V>)
    ensures r.count == d.count + 1
    ensures r.(count := d.count) == d
  {
    d.(count := d.count + 1)
  }

  /** `std::string::find`: the index of the first `c`, or `|s|` (npos). */
  function FindChar(s: string, c: char): (k: nat)
    ensures k <= |s|
    ensures forall j :: 0 <= j < k ==> s[j] != c
    ensures k < |s| ==> s[k] == c
  {
    if s == [] then 0 else if s[0] == c then 0 else 1 + FindChar(s[1..], c)
  }

  /** `parseLongOption` on `tokens[i]`: the key is the text before the first
      `=`. An unknown key records one error; a known key is counted and takes
      the text after `=`, or else the next token when there is one. */
  function LongOption<V>(reg: Registry, convert: string -> V, st: ScanState<V>, tokens: seq<string>, i: nat): (r: Advance<V>)
    requires i < |tokens| && Bound(reg, |st.descs|)
    ensures |r.state.descs| == |st.descs| && r.state.args == st.args
    ensures i + 1 <= r.next <= i + 2 && r.next <= |tokens|
  {
    var token := tokens[i];
    var equ := FindChar(token, '=');
    var key := token[..equ];
    if key !in reg.long then
      Advance(st.(errors := st.errors + [UnknownLong(key)]), i + 1)
    else
      var id := reg.long[key];
      var counted := Counted(st.descs[id]);
      var d := if equ < |token| then ParseValue(counted, token[equ + 1..], convert) else counted;
      if equ == |token| && i + 1 < |tokens| then
        Advance(st.(descs := st.descs[id := ParseValue(d, tokens[i + 1], convert)]), i + 2)
      else
        Advance(st.(descs := st.descs[id := d]), i + 1)
  }

  /** The character loop of `parseShortOption` on `tokens[i]`, from index `k`:
      a known flag character is counted and the loop goes on; the first
      character that expects a value is counted and takes the rest of the
      token, or else the next token when there is one; an unknown character
      records one error and abandons the rest of the token. */
  function ShortCluster<V>(reg: Registry, convert: string -> V, st: ScanState<V>, tokens: seq<string>, i: nat, k: nat): (r: Advance<V>)
    requires i < |tokens| && 1 <= k && Bound(reg, |st.descs|)
    ensures |r.state.descs| == |st.descs| && r.state.args == st.args
    ensures i + 1 <= r.next <= i + 2 && r.next <= |tokens|
    decreases |tokens[i]| - k
  {
    var token := tokens[i];
    if k >= |token| then Advance(st, i + 1)
    else if token[k] !in reg.short then
      Advance(st.(errors := st.errors + [UnknownShort(token[k], token)]), i + 1)
    else
      var id := reg.short[token[k]];
      var d := Counted(st.descs[id]);
      if d.expectsValue && k + 1 < |token| then
        Advance(st.(descs := st.descs[id := ParseValue(d, token[k + 1..], convert)]), i + 1)
      else if d.expectsValue then
        if i + 1 < |tokens| then
          Advance(st.(descs := st.descs[id := ParseValue(d, tokens[i + 1], convert)]), i + 2)
        else
          Advance(st.(descs := st.descs[id := d]), i + 1)
      else
        ShortCluster(reg, convert, st.(descs := st.descs[id := d]), tokens, i, k + 1)
  }

  /** A token that the loop of `parse` stores as a positional argument while
      flags are processed: it does not start with `-`, or it is `-` alone. */
  predicate IsPositional(token: string)
    ensures IsPositional(token) <==> |token| == 0 || token[0] != '-' || token == "-"
    ensures IsPositional(token) ==> !IsShortAlias(token) && !IsLongAlias(token)
  {
    !("-" <= token) || token == "-"
  }

  /** One iteration of the loop in `parse`. */
  function Step<V>(reg: Registry, convert: string -> V, st: ScanState<V>, tokens: seq<string>, i: nat, processing: bool): (r: Stepped<V>)
    requires i < |tokens| && Bound(reg, |st.descs|)
    ensures |r.state.descs| == |st.descs|
    ensures i + 1 <= r.next <= i + 2 && r.next <= |tokens|
    ensures !processing ==> !r.processing
  {
    var token := tokens[i];
    if !processing then
      Stepped(st.(args := st.args + [token]), i + 1, false)
    else if token == "--" then
      Stepped(st, i + 1, false)
    else if |token| > 2 && "--" <= token then
      var a := LongOption(reg, convert, st, tokens, i);
      Stepped(a.state, a.next, true)
    else if |token| > 1 && "-" <= token then
      var a := ShortCluster(reg, convert, st, tokens, i, 1);
      Stepped(a.state, a.next, true)
    else
      Stepped(st.(args := st.args + [token]), i + 1, true)
  }

  /** The loop of `parse` from position `i` to the end of the input. */
  function Run<V>(reg: Registry, convert: string -> V, st: ScanState<V>, tokens: seq<string>, i: nat, processing: bool): (r: ScanState<V>)
    requires i <= |tokens| && Bound(reg, |st.descs|)
    ensures |r.descs| == |st.descs|
    decreases |tokens| - i
  {
    if i == |tokens| then st
    else
      var s := Step(reg, convert, st, tokens, i, processing);
      Run(reg, convert, s.state, tokens, s.next, s.processing)
  }

  /** An option that is required and was never matched. */
  predicate Missing<V>(d: Descriptor<V>)
  {
    d.required && d.count == 0
  }

  /** The check after the scan: one error per option-list entry that is
      required and was never matched, in list order. */
  function RequiredErrors<V>(descs: seq<Descriptor<V>>, list: seq<nat>): (r: seq<ParseError>)
    requires ListBound(list, |descs|)
    ensures |r| <= |list|
    ensures forall k :: 0 <= k < |r| ==> r[k].MissingRequired?
  {
    if list == [] then []
    else
      var d := descs[list[|list| - 1]];
      RequiredErrors(descs, list[..|list| - 1]) + (if Missing(d) then [MissingRequired(d.flags)] else [])
  }

  /** Positions of the option list whose descriptor is missing. */
  function MissingPositions<V>(descs: seq<Descriptor<V>>, list: seq<nat>): set<int>
    requires ListBound(list, |descs|)
  {
    set k | 0 <= k < |list| && Missing(descs[list[k]])
  }

  /** Exactly one "required" error per missing entry of the option list, and
      each names the aliases of a missing descriptor of the list. */
  lemma {:induction false} RequiredErrorsExact<V>(descs: seq<Descriptor<V>>, list: seq<nat>)
    requires ListBound(list, |descs|)
    ensures |RequiredErrors(descs, list)| == |MissingPositions(descs, list)|
    ensures forall e :: e in RequiredErrors(descs, list) ==>
      exists id :: id in list && Missing(descs[id]) && e == MissingRequired(descs[id].flags)
    decreases |list|
  {
    if list != [] {
      var n := |list| - 1;
      var init := list[..n];
      RequiredErrorsExact(descs, init);
      var before := MissingPositions(descs, init);
      assert n !in before;
      if Missing(descs[list[n]]) {
        assert MissingPositions(descs, list) == before + {n};
      } else {
        assert MissingPositions(descs, list) == before;
      }
    }
  }

  /** The required errors of a single entry: one naming its aliases when it
      is missing, none otherwise. */
  lemma RequiredErrorsSingle<V>(descs: seq<Descriptor<V>>, id: nat)
    requires id < |descs|
    ensures ListBound([id], |descs|)
    ensures RequiredErrors(descs, [id]) == if Missing(descs[id]) then [MissingRequired(descs[id].flags)] else []
  {
    assert ListBound([id], |descs|);
    assert [id][..0] == [];
  }

  /** The required errors follow the option list: checking a list made of
      two parts reports the first part's errors, then the second's. */
  lemma {:induction false} RequiredErrorsAppend<V>(descs: seq<Descriptor<V>>, first: seq<nat>, second: seq<nat>)
    requires ListBound(first, |descs|) && ListBound(second, |descs|)
    ensures ListBound(first + second, |descs|)
    ensures RequiredErrors(descs, first + second) == RequiredErrors(descs, first) + RequiredErrors(descs, second)
    decreases |second|
  {
    var both := first + second;
    assert ListBound(both, |descs|);
    if second == [] {
      assert both == first;
    } else {
      var n := |second| - 1;
      assert both[..|both| - 1] == first + second[..n];
      assert both[|both| - 1] == second[n];
      RequiredErrorsAppend(descs, first, second[..n]);
    }
  }

  /** With flag processing off, every remaining token is appended verbatim
      and in order to the positional arguments; nothing else changes. */
  lemma {:induction false} RunUnprocessed<V>(reg: Registry, convert: string -> V, st: ScanState<V>, tokens: seq<string>, i: nat)
    requires i <= |tokens| && Bound(reg, |st.descs|)
    ensures Run(reg, convert, st, tokens, i, false) == st.(args := st.args + tokens[i..])
    decreases |tokens| - i
  {
    if i == |tokens| {
      assert st.args + tokens[i..] == st.args;
    } else {
      var st' := st.(args := st.args + [tokens[i]]);
      RunUnprocessed(reg, convert, st', tokens, i + 1);
      assert st'.args + tokens[i + 1..] == st.args + tokens[i..];
    }
  }

  /** A bare `--` is consumed and not stored; every later token becomes a
      positional argument and no descriptor changes. */
  lemma RunAfterDoubleDash<V>(reg: Registry, convert: string -> V, st: ScanState<V>, tokens: seq<string>, i: nat)
    requires i < |tokens| && tokens[i] == "--" && Bound(reg, |st.descs|)
    ensures Run(reg, convert, st, tokens, i, true) == st.(args := st.args + tokens[i + 1..])
  {
    RunUnprocessed(reg, convert, st, tokens, i + 1);
  }

  /** While flags are processed, a token is stored as a positional argument
      exactly when it is positional, and then it consumes one position and
      touches nothing else; any other token leaves the positional arguments
      alone. */
  lemma StepPositional<V>(reg: Registry, convert: string -> V, st: ScanState<V>, tokens: seq<string>, i: nat)
    requires i < |tokens| && Bound(reg, |st.descs|)
    ensures var r := Step(reg, convert, st, tokens, i, true);
      && (IsPositional(tokens[i]) ==> r == Stepped(st.(args := st.args + [tokens[i]]), i + 1, true))
      && (!IsPositional(tokens[i]) ==> r.state.args == st.args)
  {
  }

  /** The effect of one long option. */
  lemma LongOptionEffect<V>(reg: Registry, convert: string -> V, st: ScanState<V>, tokens: seq<string>, i: nat)
    requires i < |tokens| && Bound(reg, |st.descs|)
    ensures var token := tokens[i];
      var equ := FindChar(token, '=');
      var key := token[..equ];
      var r := LongOption(reg, convert, st, tokens, i);
      && (key !in reg.long ==>
            r == Advance(st.(errors := st.errors + [UnknownLong(key)]), i + 1))
      && (key in reg.long ==>
            var id := reg.long[key];
            && r.state.errors == st.errors && r.state.args == st.args
            && |r.state.descs| == |st.descs|
            && (forall x :: 0 <= x < |st.descs| && x != id ==> r.state.descs[x] == st.descs[x])
            && r.state.descs[id].count == st.descs[id].count + 1
            && r.state.descs[id].(count := st.descs[id].count, value := st.descs[id].value) == st.descs[id]
            && (equ < |token| ==>
                  r.state.descs[id].value == Some(convert(token[equ + 1..])) && r.next == i + 1)
            && (equ == |token| && i + 1 < |tokens| ==>
                  r.state.descs[id].value == Some(convert(tokens[i + 1])) && r.next == i + 2)
            && (equ == |token| && i + 1 == |tokens| ==>
                  r.state.descs[id].value == st.descs[id].value && r.next == i + 1))
  {
  }

  /** Every character of `chars` is bound to a descriptor that takes no value. */
  predicate AllFlags<V>(short: map<char, nat>, descs: seq<Descriptor<V>>, chars: string)
  {
    forall c :: c in chars ==> c in short && short[c] < |descs| && !descs[short[c]].expectsValue
  }

  /** Counts one match for the descriptor of each character, in order. */
  function Bump<V>(short: map<char, nat>, descs: seq<Descriptor<V>>, chars: string): (r: seq<Descriptor<V>>)
    requires forall c :: c in chars ==> c in short && short[c] < |descs|
    ensures |r| == |descs|
    decreases |chars|
  {
    if chars == [] then descs
    else
      var id := short[chars[0]];
      Bump(short, descs[id := Counted(descs[id])], chars[1..])
  }

  /** Number of characters of `chars` bound to descriptor `id`. */
  function Hits(short: map<char, nat>, chars: string, id: nat): nat
  {
    if chars == [] then 0
    else (if chars[0] in short && short[chars[0]] == id then 1 else 0) + Hits(short, chars[1..], id)
  }

  /** Bumping raises each descriptor's count by the number of characters
      bound to it and changes nothing else. */
  lemma {:induction false} BumpCounts<V>(short: map<char, nat>, descs: seq<Descriptor<V>>, chars: string, x: nat)
    requires forall c :: c in chars ==> c in short && short[c] < |descs|
    requires x < |descs|
    ensures Bump(short, descs, chars)[x] == descs[x].(count := descs[x].count + Hits(short, chars, x))
    decreases |chars|
  {
    if chars != [] {
      var id := short[chars[0]];
      assert forall c :: c in chars[1..] ==> c in chars;
      BumpCounts(short, descs[id := Counted(descs[id])], chars[1..], x);
    }
  }

  /** The cluster walk passes over a run of flag characters by counting each. */
  lemma {:induction false} ClusterSkipsFlags<V>(reg: Registry, convert: string -> V, st: ScanState<V>, tokens: seq<string>, i: nat, k: nat, m: nat)
    requires i < |tokens| && 1 <= k <= m <= |tokens[i]| && Bound(reg, |st.descs|)
    requires AllFlags(reg.short, st.descs, tokens[i][k..m])
    ensures ShortCluster(reg, convert, st, tokens, i, k)
         == ShortCluster(reg, convert, st.(descs := Bump(reg.short, st.descs, tokens[i][k..m])), tokens, i, m)
    decreases m - k
  {
    var token := tokens[i];
    if k < m {
      assert token[k] == token[k..m][0];
      var id := reg.short[token[k]];
      var st' := st.(descs := st.descs[id := Counted(st.descs[id])]);
      assert token[k..m][1..] == token[k + 1..m];
      assert forall c :: c in token[k + 1..m] ==> c in token[k..m];
      ClusterSkipsFlags(reg, convert, st', tokens, i, k + 1, m);
    } else {
      assert token[k..m] == [];
    }
  }

  /** A cluster made only of flag characters counts each of them and
      consumes one token, with no error. */
  lemma ClusterOfFlags<V>(reg: Registry, convert: string -> V, st: ScanState<V>, tokens: seq<string>, i: nat)
    requires i < |tokens| && 1 <= |tokens[i]| && Bound(reg, |st.descs|)
    requires AllFlags(reg.short, st.descs, tokens[i][1..])
    ensures ShortCluster(reg, convert, st, tokens, i, 1)
         == Advance(st.(descs := Bump(reg.short, st.descs, tokens[i][1..])), i + 1)
  {
    assert tokens[i][1..|tokens[i]|] == tokens[i][1..];
    ClusterSkipsFlags(reg, convert, st, tokens, i, 1, |tokens[i]|);
  }

  /** An unknown character after a run of flags records one error naming it
      and the token, and the rest of the token is abandoned. */
  lemma ClusterStopsAtUnknown<V>(reg: Registry, convert: string -> V, st: ScanState<V>, tokens: seq<string>, i: nat, k: nat)
    requires i < |tokens| && 1 <= k < |tokens[i]| && Bound(reg, |st.descs|)
    requires AllFlags(reg.short, st.descs, tokens[i][1..k])
    requires tokens[i][k] !in reg.short
    ensures ShortCluster(reg, convert, st, tokens, i, 1)
         == Advance(ScanState(Bump(reg.short, st.descs, tokens[i][1..k]), st.args,
                              st.errors + [UnknownShort(tokens[i][k], tokens[i])]), i + 1)
  {
    ClusterSkipsFlags(reg, convert, st, tokens, i, 1, k);
  }

  /** The first character that expects a value ends the cluster: it is
      counted and takes the rest of the token, or else the next token when
      there is one (and then two positions are consumed). */
  lemma ClusterEndsAtValue<V>(reg: Registry, convert: string -> V, st: ScanState<V>, tokens: seq<string>, i: nat, k: nat)
    requires i < |tokens| && 1 <= k < |tokens[i]| && Bound(reg, |st.descs|)
    requires AllFlags(reg.short, st.descs, tokens[i][1..k])
    requires tokens[i][k] in reg.short && st.descs[reg.short[tokens[i][k]]].expectsValue
    ensures var token := tokens[i];
      var id := reg.short[token[k]];
      var bumped := Bump(reg.short, st.descs, token[1..k]);
      var d := Counted(bumped[id]);
      var r := ShortCluster(reg, convert, st, tokens, i, 1);
      && r.state.errors == st.errors
      && (k + 1 < |token| ==>
            r == Advance(st.(descs := bumped[id := ParseValue(d, token[k + 1..], convert)]), i + 1))
      && (k + 1 == |token| && i + 1 < |tokens| ==>
            r == Advance(st.(descs := bumped[id := ParseValue(d, tokens[i + 1], convert)]), i + 2))
      && (k + 1 == |token| && i + 1 == |tokens| ==>
            r == Advance(st.(descs := bumped[id := d]), i + 1))
  {
    ClusterSkipsFlags(reg, convert, st, tokens, i, 1, k);
    var id := reg.short[tokens[i][k]];
    BumpCounts(reg.short, st.descs, tokens[i][1..k], id);
  }

  /** The scan only appends: earlier errors and positional arguments stay in
      place, so nothing recorded is rolled back. */
  lemma {:induction false} RunExtends<V>(reg: Registry, convert: string -> V, st: ScanState<V>, tokens: seq<string>, i: nat, processing: bool)
    requires i <= |tokens| && Bound(reg, |st.descs|)
    ensures st.errors <= Run(reg, convert, st, tokens, i, processing).errors
    ensures st.args <= Run(reg, convert, st, tokens, i, processing).args
    decreases |tokens| - i
  {
    if i < |tokens| {
      var s := Step(reg, convert, st, tokens, i, processing);
      StepExtends(reg, convert, st, tokens, i, processing);
      RunExtends(reg, convert, s.state, tokens, s.next, s.processing);
    }
  }

  lemma StepExtends<V>(reg: Registry, convert: string -> V, st: ScanState<V>, tokens: seq<string>, i: nat, processing: bool)
    requires i < |tokens| && Bound(reg, |st.descs|)
    ensures st.errors <= Step(reg, convert, st, tokens, i, processing).state.errors
    ensures st.args <= Step(reg, convert, st, tokens, i, processing).state.args
  {
    var token := tokens[i];
    if processing && token != "--" && !(|token| > 2 && "--" <= token) && |token| > 1 && "-" <= token {
      ClusterExtends(reg, convert, st, tokens, i, 1);
    }
  }

  lemma {:induction false} ClusterExtends<V>(reg: Registry, convert: string -> V, st: ScanState<V>, tokens: seq<string>, i: nat, k: nat)
    requires i < |tokens| && 1 <= k && Bound(reg, |st.descs|)
    ensures st.errors <= ShortCluster(reg, convert, st, tokens, i, k).state.errors
    decreases |tokens[i]| - k
  {
    var token := tokens[i];
    if k < |token| && token[k] in reg.short {
      var id := reg.short[token[k]];
      var d := Counted(st.descs[id]);
      if !d.expectsValue {
        ClusterExtends(reg, convert, st.(descs := st.descs[id := d]), tokens, i, k + 1);
      }
    }
  }
}
