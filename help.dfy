/** The text `Parser::printHelp` writes (src/include/aa/parser.hpp): a usage
    line with one item per option-list entry, then an `options:` block with
    one line per entry, both in registration order. */
module Help {
  import opened Internal
  import opened Options
  import opened Registration

  /** One usage item: the aliases joined by `|`, then ` METAVAR` when the
      option takes a value, in brackets unless the option is required. */
  function UsageItem<V>(d: Descriptor<V>): (item: string)
    ensures !d.required ==> |item| >= 2 && item[0] == '[' && item[|item| - 1] == ']'
    ensures d.expectsValue ==> |item| >= |d.metavar| + 1
  {
    (if d.required then "" else "[")
    + Joined(d.flags, "|")
    + (if d.expectsValue then " " + d.metavar else "")
    + (if d.required then "" else "]")
  }

  /** The usage items of the entries of `list`, each preceded by a space. */
  function UsageItems<V>(descs: seq<Descriptor<V>>, list: seq<nat>): (r: string)
    requires ListBound(list, |descs|)
    ensures |r| >= |list|
  {
    if list == [] then ""
    else UsageItems(descs, list[..|list| - 1]) + " " + UsageItem(descs[list[|list| - 1]])
  }

  /** One line of the options block: two spaces, the aliases joined by ", ",
      a space and the help text. */
  function OptionLine<V>(d: Descriptor<V>): (line: string)
    ensures |line| >= 4 && line[..2] == "  " && line[|line| - 1] == '\n'
  {
    "  " + Joined(d.flags, ", ") + " " + d.help + "\n"
  }

  /** The options block for the entries of `list`. */
  function OptionLines<V>(descs: seq<Descriptor<V>>, list: seq<nat>): (r: string)
    requires ListBound(list, |descs|)
    ensures |r| >= 4 * |list|
  {
    if list == [] then ""
    else OptionLines(descs, list[..|list| - 1]) + OptionLine(descs[list[|list| - 1]])
  }

  /** The whole help text. */
  function HelpText<V>(programName: string, descs: seq<Descriptor<V>>, list: seq<nat>): (text: string)
    requires ListBound(list, |descs|)
    ensures "usage: " + programName <= text
    ensures |text| >= 17 + |programName| + 5 * |list|
  {
    "usage: " + programName + UsageItems(descs, list) + "\n" + "options:\n" + OptionLines(descs, list)
  }

  lemma UsageItemsStep<V>(descs: seq<Descriptor<V>>, list: seq<nat>, k: nat)
    requires ListBound(list, |descs|) && k < |list|
    ensures ListBound(list[..k], |descs|) && ListBound(list[..k + 1], |descs|)
    ensures UsageItems(descs, list[..k + 1]) == UsageItems(descs, list[..k]) + " " + UsageItem(descs[list[k]])
  {
    var pre := list[..k + 1];
    assert ListBound(pre, |descs|);
    assert pre[..|pre| - 1] == list[..k];
    assert pre[|pre| - 1] == list[k];
  }

  lemma OptionLinesStep<V>(descs: seq<Descriptor<V>>, list: seq<nat>, k: nat)
    requires ListBound(list, |descs|) && k < |list|
    ensures ListBound(list[..k], |descs|) && ListBound(list[..k + 1], |descs|)
    ensures OptionLines(descs, list[..k + 1]) == OptionLines(descs, list[..k]) + OptionLine(descs[list[k]])
  {
    var pre := list[..k + 1];
    assert ListBound(pre, |descs|);
    assert pre[..|pre| - 1] == list[..k];
    assert pre[|pre| - 1] == list[k];
  }

  /** The usage line renders the entries in list order: rendering a list made
      of two parts is rendering the first part, then the second. */
  lemma {:induction false} UsageItemsAppend<V>(descs: seq<Descriptor<V>>, first: seq<nat>, second: seq<nat>)
    requires ListBound(first, |descs|) && ListBound(second, |descs|)
    ensures ListBound(first + second, |descs|)
    ensures UsageItems(descs, first + second) == UsageItems(descs, first) + UsageItems(descs, second)
    decreases |second|
  {
    var both := first + second;
    assert ListBound(both, |descs|);
    if second == [] {
      assert both == first;
    } else {
      var n := |second| - 1;
      var item := UsageItem(descs[second[n]]);
      assert both[..|both| - 1] == first + second[..n];
      assert both[|both| - 1] == second[n];
      assert UsageItems(descs, both) == UsageItems(descs, first + second[..n]) + " " + item;
      assert UsageItems(descs, second) == UsageItems(descs, second[..n]) + " " + item;
      UsageItemsAppend(descs, first, second[..n]);
    }
  }

  /** The options block renders the entries in list order, in the same way. */
  lemma {:induction false} OptionLinesAppend<V>(descs: seq<Descriptor<V>>, first: seq<nat>, second: seq<nat>)
    requires ListBound(first, |descs|) && ListBound(second, |descs|)
    ensures ListBound(first + second, |descs|)
    ensures OptionLines(descs, first + second) == OptionLines(descs, first) + OptionLines(descs, second)
    decreases |second|
  {
    var both := first + second;
    assert ListBound(both, |descs|);
    if second == [] {
      assert both == first;
    } else {
      var n := |second| - 1;
      var line := OptionLine(descs[second[n]]);
      assert both[..|both| - 1] == first + second[..n];
      assert both[|both| - 1] == second[n];
      assert OptionLines(descs, both) == OptionLines(descs, first + second[..n]) + line;
      assert OptionLines(descs, second) == OptionLines(descs, second[..n]) + line;
      OptionLinesAppend(descs, first, second[..n]);
    }
  }

  /** For a descriptor with at least one alias (aliases start with `-`), the
      item opens with `[` exactly when the option is not required, and then
      it also closes with `]`; a required item is the bare aliases. */
  lemma UsageItemBrackets<V>(d: Descriptor<V>)
    requires |d.flags| >= 1 && "-" <= d.flags[0]
    ensures var item := UsageItem(d);
      && |item| > 0
      && (item[0] == '[' <==> !d.required)
      && (!d.required ==> item[|item| - 1] == ']')
      && (d.required ==> Joined(d.flags, "|") <= item)
  {
    JoinedStartsWithHead(d.flags, "|");
  }

  /** What a help text contains once no program name, alias, metavar or
      help text holds a line break. */
  predicate SingleLine<V>(programName: string, descs: seq<Descriptor<V>>, list: seq<nat>)
    requires ListBound(list, |descs|)
  {
    && Occurrences(programName, '\n') == 0
    && forall k :: 0 <= k < |list| ==>
         && Occurrences(descs[list[k]].metavar, '\n') == 0
         && Occurrences(descs[list[k]].help, '\n') == 0
         && (forall f :: f in descs[list[k]].flags ==> Occurrences(f, '\n') == 0)
  }

  /** A usage item holds no line break when its aliases and metavar hold none. */
  lemma UsageItemLineFree<V>(d: Descriptor<V>)
    requires Occurrences(d.metavar, '\n') == 0
    requires forall f :: f in d.flags ==> Occurrences(f, '\n') == 0
    ensures Occurrences(UsageItem(d), '\n') == 0
  {
    OccurrencesJoined(d.flags, "|", '\n');
    var prefix := if d.required then "" else "[";
    var suffix := if d.required then "" else "]";
    var meta := if d.expectsValue then " " + d.metavar else "";
    OccurrencesAppend(" ", d.metavar, '\n');
    OccurrencesAppend(prefix, Joined(d.flags, "|"), '\n');
    OccurrencesAppend(prefix + Joined(d.flags, "|"), meta, '\n');
    OccurrencesAppend(prefix + Joined(d.flags, "|") + meta, suffix, '\n');
  }

  /** An option line holds exactly its final line break when its aliases and
      help text hold none. */
  lemma OptionLineBreak<V>(d: Descriptor<V>)
    requires Occurrences(d.help, '\n') == 0
    requires forall f :: f in d.flags ==> Occurrences(f, '\n') == 0
    ensures Occurrences(OptionLine(d), '\n') == 1
  {
    OccurrencesJoined(d.flags, ", ", '\n');
    var joined := Joined(d.flags, ", ");
    OccurrencesAppend("  ", joined, '\n');
    OccurrencesAppend("  " + joined, " ", '\n');
    OccurrencesAppend("  " + joined + " ", d.help, '\n');
    OccurrencesAppend("  " + joined + " " + d.help, "\n", '\n');
  }

  lemma {:induction false} LineBreaksOfEntries<V>(descs: seq<Descriptor<V>>, list: seq<nat>)
    requires ListBound(list, |descs|) && SingleLine("", descs, list)
    ensures Occurrences(UsageItems(descs, list), '\n') == 0
    ensures Occurrences(OptionLines(descs, list), '\n') == |list|
    decreases |list|
  {
    if list != [] {
      var n := |list| - 1;
      var init := list[..n];
      assert ListBound(init, |descs|);
      assert SingleLine("", descs, init) by {
        forall k | 0 <= k < |init| ensures init[k] == list[k] { }
      }
      LineBreaksOfEntries(descs, init);
      var d := descs[list[n]];
      UsageItemLineFree(d);
      OptionLineBreak(d);
      var items := UsageItems(descs, init);
      assert UsageItems(descs, list) == items + " " + UsageItem(d);
      OccurrencesAppend(items, " ", '\n');
      OccurrencesAppend(items + " ", UsageItem(d), '\n');
      assert OptionLines(descs, list) == OptionLines(descs, init) + OptionLine(d);
      OccurrencesAppend(OptionLines(descs, init), OptionLine(d), '\n');
    }
  }

  /** The help text has exactly two lines more than the option list has
      entries: the usage line, the `options:` header and one line per entry. */
  lemma HelpLineCount<V>(programName: string, descs: seq<Descriptor<V>>, list: seq<nat>)
    requires ListBound(list, |descs|) && SingleLine(programName, descs, list)
    ensures Occurrences(HelpText(programName, descs, list), '\n') == |list| + 2
  {
    LineBreaksOfEntries(descs, list);
    var usage := "usage: " + programName + UsageItems(descs, list);
    OccurrencesAppend("usage: ", programName, '\n');
    OccurrencesAppend("usage: " + programName, UsageItems(descs, list), '\n');
    OccurrencesAppend(usage, "\n", '\n');
    OccurrencesAppend(usage + "\n", "options:\n", '\n');
    OccurrencesAppend(usage + "\n" + "options:\n", OptionLines(descs, list), '\n');
  }
}
