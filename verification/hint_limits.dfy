/**
 How far the next-page hint reaches: exactly which calls it restores, and how a
 caller gets into each of those it does not.
 */
module HintLimits {
  import opened Wrappers
  import opened ShellWords
  import opened ListHint

  // ----- Which calls are restored

  /** Characters printed without quotes are not control characters. */
  predicate Sane(ctl: Controls) { forall c | IsSafe(c) :: !ctl(c) }

  lemma CleanTwice(s: string, ctl: Controls)
    ensures Clean(Clean(s, ctl), ctl) == Clean(s, ctl)
  {
  }

  lemma MeaningIsClean(p: Part, ctl: Controls)
    requires Sane(ctl) && Printable(p)
    ensures Clean(Meaning(p, ctl), ctl) == Meaning(p, ctl)
  {
    if p.Raw? { CleanIsItself(p.text, ctl); } else { CleanTwice(p.text, ctl); }
  }

  lemma {:induction false} MeaningsAreClean(parts: seq<Part>, ctl: Controls, w: string)
    requires Sane(ctl) && AllPrintable(parts) && w in Meanings(parts, ctl)
    ensures Clean(w, ctl) == w
  {
    MeaningIsClean(parts[0], ctl);
    if w != Meaning(parts[0], ctl) {
      MeaningsAreClean(parts[1..], ctl, w);
    }
  }

  lemma {:induction false} AllClean(pos: seq<string>, ctl: Controls)
    requires forall w | w in pos :: Clean(w, ctl) == w
    ensures CleanAll(pos, ctl) == pos
  {
    if pos != [] {
      AllClean(pos[1..], ctl);
    }
  }

  /** Parsing the words gives the original arguments and flags, with only the next
      page replaced. */
  predicate Restores(spec: Spec, words: seq<string>, pos: seq<string>, vals: Values, value: string) {
    var p := ParseCommand(spec.flags, words);
    p.Some? && p.value.pos == pos && p.value.vals == vals[spec.nextFlag := Str(value)]
  }

  /** Cleaning changes nothing in the call, and no argument looks like a flag. */
  predicate Replayable(spec: Spec, pos: seq<string>, vals: Values, value: string, ctl: Controls) {
    && NoneDashLed(pos) && CleanAll(pos, ctl) == pos && Clean(value, ctl) == value
    && forall name | name in vals && name != spec.nextFlag :: CleanValue(vals[name], ctl) == vals[name]
  }

  lemma NextValuesExactly(spec: Spec, vals: Values, value: string, ctl: Controls)
    ensures NextValues(spec, vals, value, ctl) == vals[spec.nextFlag := Str(value)] <==>
            && Clean(value, ctl) == value
            && forall name | name in vals && name != spec.nextFlag :: CleanValue(vals[name], ctl) == vals[name]
  {
    var left, right := NextValues(spec, vals, value, ctl), vals[spec.nextFlag := Str(value)];
    assert left.Keys == right.Keys;
    assert left[spec.nextFlag] == Str(Clean(value, ctl)) && right[spec.nextFlag] == Str(value);
    assert forall name | name in vals && name != spec.nextFlag ::
        left[name] == CleanValue(vals[name], ctl) && right[name] == vals[name];
    assert left == right <==> forall name | name in left :: left[name] == right[name];
  }

  /** What the parser reads back as an argument was printed clean. */
  lemma RestoredArgumentsAreClean(spec: Spec, pos: seq<string>, vals: Values, value: string, ctl: Controls)
    requires WellFormed(spec.flags) && Typed(spec.flags, vals) && NextIsText(spec) && Sane(ctl)
    requires Restores(spec, Meanings(ArgumentParts(spec, pos, vals, value), ctl), pos, vals, value)
    ensures CleanAll(pos, ctl) == pos
  {
    var parts := ArgumentParts(spec, pos, vals, value);
    forall w | w in pos ensures Clean(w, ctl) == w {
      PositionalsAreWords(spec.flags, Meanings(parts, ctl), Parsed([], Defaults(spec.flags), {}), w);
      ArgumentsPrintable(spec, pos, vals, value);
      MeaningsAreClean(parts, ctl, w);
    }
    AllClean(pos, ctl);
  }

  /** The hint's words give the original call back if and only if that call is
      replayable. */
  lemma HintRestoresExactly(spec: Spec, pos: seq<string>, vals: Values, value: string, ctl: Controls)
    requires WellFormed(spec.flags) && NoSwitches(spec.flags) && Typed(spec.flags, vals) && NextIsText(spec)
    requires OnlyFlags(spec.flags, vals) && Sane(ctl)
    ensures Restores(spec, Meanings(ArgumentParts(spec, pos, vals, value), ctl), pos, vals, value)
            <==> Replayable(spec, pos, vals, value, ctl)
  {
    if Restores(spec, Meanings(ArgumentParts(spec, pos, vals, value), ctl), pos, vals, value) {
      RestoredArgumentsAreClean(spec, pos, vals, value, ctl);
    }
    if CleanAll(pos, ctl) == pos {
      HintReplaysExactly(spec, pos, vals, value, ctl);
      NextValuesExactly(spec, vals, value, ctl);
      if NoneDashLed(pos) { HintParses(spec, pos, vals, value, ctl); }
      else { DashLedIsNotRestored(spec, pos, vals, value, ctl); }
    }
  }

  lemma DashLedIsNotRestored(spec: Spec, pos: seq<string>, vals: Values, value: string, ctl: Controls)
    requires WellFormed(spec.flags) && NoSwitches(spec.flags) && Typed(spec.flags, vals) && NextIsText(spec)
    requires CleanAll(pos, ctl) == pos && !NoneDashLed(pos)
    ensures !Restores(spec, Meanings(ArgumentParts(spec, pos, vals, value), ctl), pos, vals, value)
  {
    ArgumentMeanings(spec, pos, vals, value, ctl);
    PairWordsArePairs(spec, vals, value, ctl);
    var start := Parsed([], Defaults(spec.flags), {});
    DashLedIsLost(spec.flags, pos, PairWords(spec, vals, value, ctl), start);
    assert start.pos + pos == pos;
  }

  /** The same for the printed line, split by the shell. */
  lemma LineRestoresExactly(spec: Spec, command: seq<string>, pos: seq<string>, vals: Values, value: string,
                            ctl: Controls)
    requires WellFormed(spec.flags) && NoSwitches(spec.flags) && Typed(spec.flags, vals) && NextIsText(spec)
    requires OnlyFlags(spec.flags, vals) && Sane(ctl) && PlainWords(command)
    ensures var words := Tokenize(HintLine(spec, command, pos, vals, value, ctl));
            && words.Some? && command <= words.value
            && (Restores(spec, words.value[|command|..], pos, vals, value) <==> Replayable(spec, pos, vals, value, ctl))
  {
    var args := Meanings(ArgumentParts(spec, pos, vals, value), ctl);
    HintLineTokenizes(spec, command, pos, vals, value, ctl);
    assert (command + args)[|command|..] == args;
    HintRestoresExactly(spec, pos, vals, value, ctl);
  }

  // ----- How a caller gets there

  /** Behind `--` any arguments can be given, those that look like flags included. */
  lemma AnyArgumentsCanBeGiven(flags: seq<Flag>, pos: seq<string>)
    ensures ParseCommand(flags, ["--"] + pos) == Some(Parsed(pos, Defaults(flags), {}))
  {
    assert (["--"] + pos)[1..] == pos && [] + pos == pos;
  }

  lemma {:induction false} DefaultsFit(flags: seq<Flag>)
    requires WellFormed(flags)
    ensures Typed(flags, Defaults(flags)) && OnlyFlags(flags, Defaults(flags))
  {
    forall i | 0 <= i < |flags|
      ensures flags[i].name in Defaults(flags) && Fits(Defaults(flags)[flags[i].name], flags[i].kind)
    {
      DefaultsAt(flags, i);
    }
    DefaultsNames(flags);
  }

  /** So a caller can get a hint that is lost: it does not give back arguments that
      look like flags. */
  lemma DashLedCallsAreLost(spec: Spec, pos: seq<string>, value: string, ctl: Controls)
    requires WellFormed(spec.flags) && NoSwitches(spec.flags) && NextIsText(spec) && Sane(ctl) && !NoneDashLed(pos)
    ensures var p := ParseCommand(spec.flags, ["--"] + pos);
            && p.Some? && p.value.pos == pos && Typed(spec.flags, p.value.vals)
            && !Restores(spec, Meanings(ArgumentParts(spec, pos, p.value.vals, value), ctl), pos, p.value.vals, value)
  {
    AnyArgumentsCanBeGiven(spec.flags, pos);
    DefaultsFit(spec.flags);
    HintRestoresExactly(spec, pos, Defaults(spec.flags), value, ctl);
  }

  /** A required text flag given as an empty string is accepted by the command, but
      the replay of its hint is not. */
  lemma EmptyRequiredIsLost(spec: Spec, i: nat, value: string, ctl: Controls)
    requires WellFormed(spec.flags) && i < |spec.flags| && NextIsText(spec) && value != ""
    requires var fl := spec.flags[i]; fl.required && fl.kind.Text? && fl.oldName == "" && fl.name != spec.nextFlag
    requires forall j | 0 <= j < |spec.flags| && j != i :: !spec.flags[j].required
    ensures var p := ParseCommand(spec.flags, ["--" + spec.flags[i].name, ""]);
            && p.Some? && Typed(spec.flags, p.value.vals) && RequiredMet(spec.flags, p.value)
            && !RequiredMet(spec.flags, Parsed([], NextValues(spec, p.value.vals, value, ctl),
                                               ShownFlags(spec, p.value.vals)))
  {
    var fl, start := spec.flags[i], Parsed([], Defaults(spec.flags), {});
    DefaultsFit(spec.flags);
    DefaultsAt(spec.flags, i);
    ParsePair(spec.flags, i, "", [], start);
    assert ["--" + fl.name, ""] + [] == ["--" + fl.name, ""];
    assert Defaults(spec.flags)[fl.name := Str("")] == Defaults(spec.flags);
    assert !RequiredShown(spec, Defaults(spec.flags));
    ReplayAccepted(spec, [], Defaults(spec.flags), value, ctl);
    assert CleanAll([], ctl) == [];
  }

  const ORDER_FLAGS: seq<Flag> := [
    Flag("status", "", "status", false, Text),
    Flag("subscription", "", "", false, Text),
    Flag("subscription-owner", "", "", false, Text),
    Flag("invoice-owner", "", "", false, Text),
    Flag("pending", "", "", false, Switch),
    Flag("page", "", "page", false, Text),
    Flag("page-size", "", "pageSize", false, Number(0, true))]

  /** `zr order list`. */
  const ORDER_LIST: Spec := Spec(ORDER_FLAGS, "page", "page")

  lemma JoinedNameIsFine(a: string, b: string)
    requires NameOK(a) && NameOK(b)
    ensures NameOK(a + "-" + b)
  {
  }

  lemma SingleNamesAreFine()
    ensures NameOK("status") && NameOK("subscription") && NameOK("invoice") && NameOK("owner")
    ensures NameOK("pending") && NameOK("page") && NameOK("size")
  {
  }

  lemma OrderNamesAreFine()
    ensures forall i | 0 <= i < |ORDER_FLAGS| :: NameOK(ORDER_FLAGS[i].name) && ORDER_FLAGS[i].oldName == ""
  {
    SingleNamesAreFine();
    JoinedNameIsFine("subscription", "owner");
    JoinedNameIsFine("invoice", "owner");
    JoinedNameIsFine("page", "size");
    assert "subscription" + "-" + "owner" == "subscription-owner" && "invoice" + "-" + "owner" == "invoice-owner";
    assert "page" + "-" + "size" == "page-size";
    var names := ["status", "subscription", "subscription-owner", "invoice-owner", "pending", "page", "page-size"];
    assert forall i | 0 <= i < |names| :: NameOK(names[i]);
    assert forall i | 0 <= i < |ORDER_FLAGS| :: ORDER_FLAGS[i].name == names[i];
  }

  lemma OrderNamesDiffer()
    ensures forall i, j | 0 <= i < |ORDER_FLAGS| && 0 <= j < |ORDER_FLAGS| && i != j ::
              ORDER_FLAGS[i].name != ORDER_FLAGS[j].name
  {
    var lengths := [6, 12, 18, 13, 7, 4, 9];
    assert |"status"| == 6 && |"subscription"| == 12 && |"subscription-owner"| == 18 && |"invoice-owner"| == 13;
    assert |"pending"| == 7 && |"page"| == 4 && |"page-size"| == 9;
    assert forall i | 0 <= i < |ORDER_FLAGS| :: |ORDER_FLAGS[i].name| == lengths[i];
    assert forall i, j | 0 <= i < 7 && 0 <= j < 7 && i != j :: lengths[i] != lengths[j];
  }

  lemma OrderFlagsAreWellFormed()
    ensures WellFormed(ORDER_FLAGS)
  {
    OrderNamesAreFine();
    OrderNamesDiffer();
    forall i, j | 0 <= i < |ORDER_FLAGS| && 0 <= j < |ORDER_FLAGS| && i != j ensures Apart(ORDER_FLAGS, i, j) {
      assert NameOK(ORDER_FLAGS[i].name);
    }
  }

  lemma OrderListHasSwitch()
    ensures HasForeignSwitch(ORDER_LIST)
  {
    assert ORDER_FLAGS[4].kind.Switch? && ORDER_FLAGS[4].name[1] == 'e';
  }

  /** Without required flags the bare command is accepted. */
  lemma BareCommandIsAccepted(flags: seq<Flag>)
    requires WellFormed(flags) && forall i | 0 <= i < |flags| :: !flags[i].required
    ensures ParseCommand(flags, []) == Some(Parsed([], Defaults(flags), {}))
    ensures Typed(flags, Defaults(flags)) && RequiredMet(flags, Parsed([], Defaults(flags), {}))
  {
    DefaultsFit(flags);
  }

  /** `zr order list` without any flag crashes on every answer whose next-page URL
      has a page parameter. */
  method OrderListCrashes(nextPage: string, param: (string, string) -> Option<string>, ctl: Controls)
    returns (hint: Hint)
    requires param(nextPage, "page").Some? && param(nextPage, "page").value != ""
    ensures var p := ParseCommand(ORDER_FLAGS, []);
            p.Some? && Typed(ORDER_FLAGS, p.value.vals) && RequiredMet(ORDER_FLAGS, p.value)
    ensures hint == Crash
  {
    OrderFlagsAreWellFormed();
    OrderListHasSwitch();
    BareCommandIsAccepted(ORDER_FLAGS);
    ghost var next;
    hint, next := PrintHint(ORDER_LIST, "zr order list", [], Defaults(ORDER_FLAGS), nextPage, param, ctl);
  }
}
