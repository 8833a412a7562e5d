/** Alias registration of `Parser::addData` (src/include/aa/parser.hpp):
    the classification of each alias and the fold that binds the aliases of
    one new descriptor into the short and long maps and the option list. */
module Registration {
  import opened Options

  /** The two alias maps; values are indices into the descriptor arena. */
  datatype Registry = Registry(short: map<char, nat>, long: map<string, nat>)

  /** Error raised by `FAIL("invalid option: " + flag)`. */
  datatype RegistrationError = InvalidOption(alias: string)

  /** `-c` with `c` not a dash. */
  predicate IsShortAlias(f: string)
  {
    |f| == 2 && f[0] == '-' && f[1] != '-'
  }

  /** `--` followed by at least one character. */
  predicate IsLongAlias(f: string)
  {
    |f| > 2 && "--" <= f
  }

  /** Every index the registry holds refers to one of `n` descriptors. */
  predicate Bound(reg: Registry, n: nat)
  {
    && (forall c :: c in reg.short ==> reg.short[c] < n)
    && (forall key :: key in reg.long ==> reg.long[key] < n)
  }

  /** Every entry of an option list refers to one of `n` descriptors. */
  predicate ListBound(list: seq<nat>, n: nat)
  {
    forall k :: 0 <= k < |list| ==> list[k] < n
  }

  /** What registration leaves behind: the maps, the option list, and the
      first alias that is neither short nor long, if any. */
  datatype Registered = Registered(reg: Registry, list: seq<nat>, invalid: Option<string>)

  /** `n` copies of `id`. */
  function Repeat(id: nat, n: nat): (r: seq<nat>)
    ensures |r| == n && forall k :: 0 <= k < n ==> r[k] == id
  {
    if n == 0 then [] else Repeat(id, n - 1) + [id]
  }

  /** The loop of `addData` over the aliases of descriptor `id`: each alias
      first appends `id` to the option list, then is bound with `emplace`
      (which keeps an existing binding), or stops registration. */
  function Bind(reg: Registry, list: seq<nat>, id: nat, names: seq<string>): (r: Registered)
    ensures list <= r.list && |r.list| <= |list| + |names|
    ensures r.invalid.Some? ==> r.invalid.value in names && |list| < |r.list|
    decreases |names|
  {
    if names == [] then Registered(reg, list, None)
    else
      var f := names[0];
      var list' := list + [id];
      if IsShortAlias(f) then
        var short := if f[1] in reg.short then reg.short else reg.short[f[1] := id];
        Bind(reg.(short := short), list', id, names[1..])
      else if IsLongAlias(f) then
        var long := if f in reg.long then reg.long else reg.long[f := id];
        Bind(reg.(long := long), list', id, names[1..])
      else
        Registered(reg, list', Some(f))
  }

  /** Registration keeps every index in range when the new id is. */
  lemma {:induction false} BindBound(reg: Registry, list: seq<nat>, id: nat, names: seq<string>, n: nat)
    requires Bound(reg, n) && id < n
    ensures Bound(Bind(reg, list, id, names).reg, n)
    decreases |names|
  {
    if names != [] {
      var f := names[0];
      if IsShortAlias(f) {
        var short := if f[1] in reg.short then reg.short else reg.short[f[1] := id];
        BindBound(reg.(short := short), list + [id], id, names[1..], n);
      } else if IsLongAlias(f) {
        var long := if f in reg.long then reg.long else reg.long[f := id];
        BindBound(reg.(long := long), list + [id], id, names[1..], n);
      }
    }
  }

  /** Registration succeeds iff every alias is short or long; then each alias
      is bound under its key (to its earlier binding if it had one, else to
      `id`), no earlier binding changes, and the option list grows by one
      copy of `id` per alias. */
  lemma {:induction false} BindSuccess(reg: Registry, list: seq<nat>, id: nat, names: seq<string>)
    ensures var r := Bind(reg, list, id, names);
      && (r.invalid.None? <==> forall f :: f in names ==> IsShortAlias(f) || IsLongAlias(f))
      && (r.invalid.None? ==> r.list == list + Repeat(id, |names|))
      && (forall c :: c in reg.short ==> c in r.reg.short && r.reg.short[c] == reg.short[c])
      && (forall key :: key in reg.long ==> key in r.reg.long && r.reg.long[key] == reg.long[key])
      && (r.invalid.None? ==> forall f :: f in names && IsShortAlias(f) ==>
            f[1] in r.reg.short && r.reg.short[f[1]] == (if f[1] in reg.short then reg.short[f[1]] else id))
      && (r.invalid.None? ==> forall f :: f in names && IsLongAlias(f) ==>
            f in r.reg.long && r.reg.long[f] == (if f in reg.long then reg.long[f] else id))
    decreases |names|
  {
    if names != [] {
      var f := names[0];
      var list' := list + [id];
      assert forall g :: g in names ==> g == f || g in names[1..];
      if IsShortAlias(f) {
        var short := if f[1] in reg.short then reg.short else reg.short[f[1] := id];
        BindSuccess(reg.(short := short), list', id, names[1..]);
        assert list' + Repeat(id, |names| - 1) == list + Repeat(id, |names|) by {
          RepeatCons(id, |names| - 1);
        }
      } else if IsLongAlias(f) {
        var long := if f in reg.long then reg.long else reg.long[f := id];
        BindSuccess(reg.(long := long), list', id, names[1..]);
        assert list' + Repeat(id, |names| - 1) == list + Repeat(id, |names|) by {
          RepeatCons(id, |names| - 1);
        }
      }
    }
  }

  /** The map keys the aliases in `names` bind: the character of each short
      alias and each long alias itself. */
  function ShortKeys(names: seq<string>): set<char>
  {
    set f | f in names && IsShortAlias(f) :: f[1]
  }

  function LongKeys(names: seq<string>): set<string>
  {
    set f | f in names && IsLongAlias(f)
  }

  /** Registration adds no key other than the aliases' own keys, and on
      success it adds every one of them. */
  lemma {:induction false} BindKeys(reg: Registry, list: seq<nat>, id: nat, names: seq<string>)
    ensures var r := Bind(reg, list, id, names);
      && r.reg.short.Keys <= reg.short.Keys + ShortKeys(names)
      && r.reg.long.Keys <= reg.long.Keys + LongKeys(names)
      && (r.invalid.None? ==> r.reg.short.Keys == reg.short.Keys + ShortKeys(names))
      && (r.invalid.None? ==> r.reg.long.Keys == reg.long.Keys + LongKeys(names))
    decreases |names|
  {
    if names != [] {
      var f := names[0];
      var rest := names[1..];
      assert names == [f] + rest;
      assert ShortKeys(names) == (if IsShortAlias(f) then {f[1]} else {}) + ShortKeys(rest);
      assert LongKeys(names) == (if IsLongAlias(f) then {f} else {}) + LongKeys(rest);
      if IsShortAlias(f) {
        var short := if f[1] in reg.short then reg.short else reg.short[f[1] := id];
        BindKeys(reg.(short := short), list + [id], id, rest);
      } else if IsLongAlias(f) {
        var long := if f in reg.long then reg.long else reg.long[f := id];
        BindKeys(reg.(long := long), list + [id], id, rest);
      }
    }
  }

  lemma RepeatCons(id: nat, n: nat)
    ensures [id] + Repeat(id, n) == Repeat(id, n + 1)
  {
  }

  /** The position of the first alias that is neither short nor long, or
      the number of aliases when every one is valid. */
  function FirstInvalid(names: seq<string>): (j: nat)
    ensures j <= |names|
    ensures forall k :: 0 <= k < j ==> IsShortAlias(names[k]) || IsLongAlias(names[k])
    ensures j < |names| ==> !IsShortAlias(names[j]) && !IsLongAlias(names[j])
  {
    if names == [] then 0
    else if IsShortAlias(names[0]) || IsLongAlias(names[0]) then 1 + FirstInvalid(names[1..])
    else 0
  }

  /** Registration stops exactly at the first alias that is neither short nor
      long; that alias has already been appended to the option list, once
      per alias up to and including it. */
  lemma {:induction false} BindFailure(reg: Registry, list: seq<nat>, id: nat, names: seq<string>)
    ensures var r := Bind(reg, list, id, names); var j := FirstInvalid(names);
      && (r.invalid.Some? <==> j < |names|)
      && (j < |names| ==> r.invalid == Some(names[j]) && r.list == list + Repeat(id, j + 1))
      && (j < |names| ==> r.reg == Bind(reg, list, id, names[..j]).reg)
    decreases |names|
  {
    if names != [] {
      var f := names[0];
      var list' := list + [id];
      if IsShortAlias(f) || IsLongAlias(f) {
        var reg' := if IsShortAlias(f)
          then reg.(short := if f[1] in reg.short then reg.short else reg.short[f[1] := id])
          else reg.(long := if f in reg.long then reg.long else reg.long[f := id]);
        assert Bind(reg, list, id, names) == Bind(reg', list', id, names[1..]);
        BindFailure(reg', list', id, names[1..]);
        var j' := FirstInvalid(names[1..]);
        if j' < |names[1..]| {
          RepeatCons(id, j' + 1);
          assert names[j' + 1] == names[1..][j'];
          assert names[..j' + 1][1..] == names[1..][..j'];
          assert Bind(reg, list, id, names[..j' + 1]).reg == Bind(reg', list', id, names[1..][..j']).reg;
        }
      } else {
        assert Repeat(id, 1) == [id];
        assert names[..0] == [];
      }
    }
  }
}
