/**
 The next-page hint of list commands: the command line it prints is read back
 by the shell and by the flag parser as the same request with the next page.
 */
module ListHint {
  import opened Wrappers
  import opened GoInts
  import opened ShellWords

  datatype Kind = Text | Number(default: int, omitZero: bool) | Repeatable | Switch

  /** One flag of a list command. `oldName` is its deprecated spelling, or "". */
  datatype Flag = Flag(name: string, oldName: string, query: string, required: bool, kind: Kind)

  datatype FlagValue = Str(s: string) | Num(n: int) | List(vs: seq<string>) | On(b: bool)

  /** The values of a command's flags, by flag name. */
  type Values = map<string, FlagValue>

  datatype Spec = Spec(flags: seq<Flag>, nextFlag: string, fromURL: string)

  predicate NameOK(name: string) {
    name != "" && AllSafe(name) && '=' !in name && name[0] != '-'
  }

  /** Flag `j` does not answer to the name of flag `i`. */
  predicate Apart(flags: seq<Flag>, i: nat, j: nat)
    requires i < |flags| && j < |flags|
  {
    flags[j].name != flags[i].name && flags[j].oldName != flags[i].name
  }

  /** Flags a command can register: names are plain words and not reused. */
  predicate WellFormed(flags: seq<Flag>) {
    && (forall i | 0 <= i < |flags| :: NameOK(flags[i].name) && flags[i].oldName != flags[i].name)
    && (forall i | 0 <= i < |flags| :: flags[i].kind.Number? ==> IsInt64(flags[i].kind.default))
    && (forall i, j | 0 <= i < |flags| && 0 <= j < |flags| && i != j :: Apart(flags, i, j))
  }

  predicate NoSwitches(flags: seq<Flag>) { forall i | 0 <= i < |flags| :: !flags[i].kind.Switch? }

  predicate Fits(v: FlagValue, kind: Kind) {
    match kind
    case Text => v.Str?
    case Number(_, _) => v.Num? && IsInt64(v.n)
    case Repeatable => v.List?
    case Switch => v.On?
  }

  predicate Names(flags: seq<Flag>, name: string) { exists i | 0 <= i < |flags| :: flags[i].name == name }

  /** Every flag has a value of its kind. */
  predicate Typed(flags: seq<Flag>, vals: Values) {
    forall i | 0 <= i < |flags| :: flags[i].name in vals && Fits(vals[flags[i].name], flags[i].kind)
  }

  /** Only flags have values. */
  predicate OnlyFlags(flags: seq<Flag>, vals: Values) { forall name | name in vals :: Names(flags, name) }

  /** The flag carrying the next page is a plain text flag of the command. */
  predicate NextIsText(spec: Spec) {
    exists i | 0 <= i < |spec.flags| :: spec.flags[i].name == spec.nextFlag && spec.flags[i].kind.Text?
  }

  // ----- Printing

  function RepeatParts(name: string, vs: seq<string>): seq<Part> {
    if vs == [] then [] else [Raw("--" + name), Value(vs[0])] + RepeatParts(name, vs[1..])
  }

  function FlagParts(fl: Flag, v: FlagValue): seq<Part>
    requires Fits(v, fl.kind)
  {
    match fl.kind
    case Number(default, _) => if v.n != default then [Raw("--" + fl.name), Raw(Itoa(v.n))] else []
    case Repeatable => RepeatParts(fl.name, v.vs)
    case Text => if v.s != "" then [Raw("--" + fl.name), Value(v.s)] else []
    case Switch => []
  }

  /** The parts of flag `i`; the next-page flag is printed last instead. */
  function OwnParts(flags: seq<Flag>, next: string, vals: Values, i: nat): seq<Part>
    requires Typed(flags, vals) && i < |flags|
  {
    if flags[i].name == next then [] else FlagParts(flags[i], vals[flags[i].name])
  }

  /** The parts of the flags before index `i`. */
  function PartsUpto(flags: seq<Flag>, next: string, vals: Values, i: nat): seq<Part>
    requires Typed(flags, vals) && i <= |flags|
  {
    if i == 0 then [] else PartsUpto(flags, next, vals, i - 1) + OwnParts(flags, next, vals, i - 1)
  }

  /** The parts of all flags. */
  function AllParts(spec: Spec, vals: Values): seq<Part>
    requires Typed(spec.flags, vals)
  {
    PartsUpto(spec.flags, spec.nextFlag, vals, |spec.flags|)
  }

  function PositionalParts(pos: seq<string>): (r: seq<Part>)
    ensures |r| == |pos|
  {
    if pos == [] then [] else [Value(pos[0])] + PositionalParts(pos[1..])
  }

  /** Everything after the command path. */
  function ArgumentParts(spec: Spec, pos: seq<string>, vals: Values, value: string): seq<Part>
    requires Typed(spec.flags, vals)
  {
    PositionalParts(pos) + AllParts(spec, vals)
    + [Raw("--" + spec.nextFlag), Value(value)]
  }

  datatype Hint = Generic | NextCommand(line: string) | Crash

  predicate HasForeignSwitch(spec: Spec) {
    exists i | 0 <= i < |spec.flags| :: spec.flags[i].kind.Switch? && spec.flags[i].name != spec.nextFlag
  }

  /** The positional words of the hint. */
  method AppendPositionals(pos: seq<string>) returns (parts: seq<Part>)
    ensures parts == PositionalParts(pos)
  {
    parts := [];
    for i := 0 to |pos|
      invariant parts == PositionalParts(pos[..i])
    {
      PositionalsGrow(pos, i);
      parts := parts + [Value(pos[i])];
    }
    assert pos[..|pos|] == pos;
  }

  lemma PartsSkip(spec: Spec, vals: Values, i: nat)
    requires Typed(spec.flags, vals) && i < |spec.flags| && spec.flags[i].name == spec.nextFlag
    ensures PartsUpto(spec.flags, spec.nextFlag, vals, i + 1) == PartsUpto(spec.flags, spec.nextFlag, vals, i)
  {
  }

  lemma PartsGrow(spec: Spec, vals: Values, i: nat)
    requires Typed(spec.flags, vals) && i < |spec.flags| && spec.flags[i].name != spec.nextFlag
    ensures PartsUpto(spec.flags, spec.nextFlag, vals, i + 1) ==
            PartsUpto(spec.flags, spec.nextFlag, vals, i) + FlagParts(spec.flags[i], vals[spec.flags[i].name])
  {
  }

  lemma {:induction false} RepeatsGrow(name: string, vs: seq<string>, j: nat)
    requires j < |vs|
    ensures RepeatParts(name, vs[..j + 1]) == RepeatParts(name, vs[..j]) + [Raw("--" + name), Value(vs[j])]
    decreases j
  {
    if j == 0 {
      assert vs[..1] == [vs[0]] && vs[..0] == [];
    } else {
      assert vs[..j + 1][1..] == vs[1..][..j] && vs[..j][1..] == vs[1..][..j - 1];
      RepeatsGrow(name, vs[1..], j - 1);
    }
  }

  /** The words of one flag: nothing for a default, one pair for each value of a
      repeatable flag. */
  method AppendFlag(parts: seq<Part>, fl: Flag, v: FlagValue) returns (more: seq<Part>)
    requires Fits(v, fl.kind)
    ensures more == parts + FlagParts(fl, v)
  {
    more := parts;
    match fl.kind {
      case Number(default, _) =>
        if v.n != default { more := more + [Raw("--" + fl.name), Raw(Itoa(v.n))]; }
      case Repeatable =>
        for j := 0 to |v.vs|
          invariant more == parts + RepeatParts(fl.name, v.vs[..j])
        {
          RepeatsGrow(fl.name, v.vs, j);
          more := more + [Raw("--" + fl.name), Value(v.vs[j])];
        }
        assert v.vs[..|v.vs|] == v.vs;
      case Text =>
        if v.s != "" { more := more + [Raw("--" + fl.name), Value(v.s)]; }
      case Switch =>
    }
  }

  /** One flag of the hint. A switch's value is not among the maps printHint
      receives, so reading it dereferences nil. */
  method AppendNext(spec: Spec, vals: Values, i: nat, parts: seq<Part>) returns (more: seq<Part>, crash: bool)
    requires Typed(spec.flags, vals) && i < |spec.flags|
    requires parts == PartsUpto(spec.flags, spec.nextFlag, vals, i)
    ensures crash <==> spec.flags[i].kind.Switch? && spec.flags[i].name != spec.nextFlag
    ensures !crash ==> more == PartsUpto(spec.flags, spec.nextFlag, vals, i + 1)
  {
    var fl := spec.flags[i];
    more, crash := parts, false;
    if fl.name == spec.nextFlag {
      PartsSkip(spec, vals, i);
    } else if fl.kind.Switch? {
      crash := true;
    } else {
      PartsGrow(spec, vals, i);
      more := AppendFlag(parts, fl, vals[fl.name]);
    }
  }

  predicate NoForeignBefore(spec: Spec, i: nat)
    requires i <= |spec.flags|
  {
    forall j | 0 <= j < i :: spec.flags[j].kind.Switch? ==> spec.flags[j].name == spec.nextFlag
  }

  lemma NoForeignAtAll(spec: Spec)
    ensures HasForeignSwitch(spec) <==> !NoForeignBefore(spec, |spec.flags|)
  {
  }

  lemma NoForeignNext(spec: Spec, i: nat)
    requires i < |spec.flags| && NoForeignBefore(spec, i)
    ensures if spec.flags[i].kind.Switch? && spec.flags[i].name != spec.nextFlag then HasForeignSwitch(spec)
            else NoForeignBefore(spec, i + 1)
  {
  }

  /** The flag words of the hint. */
  method AppendFlags(spec: Spec, vals: Values) returns (parts: seq<Part>, crash: bool)
    requires Typed(spec.flags, vals)
    ensures crash <==> HasForeignSwitch(spec)
    ensures !crash ==> parts == AllParts(spec, vals)
  {
    NoForeignAtAll(spec);
    parts := [];
    var i := 0;
    while i < |spec.flags|
      invariant i <= |spec.flags| && NoForeignBefore(spec, i)
      invariant parts == PartsUpto(spec.flags, spec.nextFlag, vals, i)
    {
      NoForeignNext(spec, i);
      parts, crash := AppendNext(spec, vals, i, parts);
      if crash {
        return;
      }
      i := i + 1;
    }
    crash := false;
  }

  /** printHint: the generic message, a complete command line, or a crash. `next` is
      the next-page value: the answer's nextPage itself, or one of its query
      parameters; `param` is net/url's reading of those, None when nextPage does
      not parse. */
  method PrintHint(spec: Spec, commandPath: string, pos: seq<string>, vals: Values, nextPage: string,
                   param: (string, string) -> Option<string>, ctl: Controls)
    returns (hint: Hint, ghost next: string)
    requires Typed(spec.flags, vals)
    ensures spec.fromURL == "" ==> next == nextPage
    ensures spec.fromURL != "" && param(nextPage, spec.fromURL).Some? ==> next == param(nextPage, spec.fromURL).value
    ensures spec.fromURL != "" && param(nextPage, spec.fromURL).None? ==> next == ""
    ensures hint == Generic <==> spec.nextFlag == "" || next == ""
    ensures hint == Crash <==> spec.nextFlag != "" && next != "" && HasForeignSwitch(spec)
    ensures hint.NextCommand? ==>
              hint.line == Join([commandPath] + WrittenAll(ArgumentParts(spec, pos, vals, next), ctl))
  {
    var value := nextPage;
    if spec.fromURL != "" {
      value := "";
      var found := param(nextPage, spec.fromURL);
      if found.Some? {
        value := found.value;
      }
    }
    next := value;
    if spec.nextFlag == "" || value == "" {
      return Generic, next;
    }
    var parts := AppendPositionals(pos);
    var flagParts, crash := AppendFlags(spec, vals);
    if crash {
      return Crash, next;
    }
    parts := parts + flagParts + [Raw("--" + spec.nextFlag), Value(value)];
    hint := NextCommand(Join([commandPath] + WrittenAll(parts, ctl)));
  }

  lemma {:induction false} PositionalsGrow(pos: seq<string>, i: nat)
    requires i < |pos|
    ensures PositionalParts(pos[..i + 1]) == PositionalParts(pos[..i]) + [Value(pos[i])]
    decreases i
  {
    if i == 0 {
      assert pos[..1] == [pos[0]] && pos[..0] == [];
    } else {
      assert pos[..i + 1][1..] == pos[1..][..i] && pos[..i][1..] == pos[1..][..i - 1];
      PositionalsGrow(pos[1..], i - 1);
    }
  }

  // ----- Parsing

  datatype Parsed = Parsed(pos: seq<string>, vals: Values, changed: set<string>)

  predicate DashLed(w: string) { |w| > 1 && w[0] == '-' }

  function FindFlag(flags: seq<Flag>, name: string): Option<Flag> {
    if flags == [] then None
    else if flags[0].name == name || (flags[0].oldName != "" && flags[0].oldName == name) then Some(flags[0])
    else FindFlag(flags[1..], name)
  }

  function EqualsAt(s: string): (i: nat)
    ensures i <= |s| && (i == |s| <==> '=' !in s)
  {
    if s == "" then 0 else if s[0] == '=' then 0 else EqualsAt(s[1..]) + 1
  }

  /** The decimal part of strconv.ParseInt(s, 0, 64); other bases are outside. */
  function ParseFlagInt(s: string): Option<int> {
    var digits := SkipSign(s);
    if |digits| > 1 && digits[0] == '0' then None else Atoi(s)
  }

  function SetFlag(acc: Parsed, fl: Flag, text: string): Option<Parsed> {
    var v := match fl.kind
      case Text => Some(Str(text))
      case Number(_, _) => (match ParseFlagInt(text) case Some(n) => Some(Num(n)) case None => None)
      case Repeatable =>
        var sofar := if fl.name in acc.vals && acc.vals[fl.name].List? then acc.vals[fl.name].vs else [];
        Some(List(sofar + [text]))
      case Switch => if text == "true" then Some(On(true)) else if text == "false" then Some(On(false)) else None;
    if v.None? then None
    else Some(Parsed(acc.pos, acc.vals[fl.name := v.value], acc.changed + {fl.name}))
  }

  /** pflag's parsing of `--name value`, `--name=value`, `--` and positional
      words, for a command without shorthands. */
  function Parse(flags: seq<Flag>, words: seq<string>, acc: Parsed): Option<Parsed>
    decreases |words|, 0
  {
    if words == [] then Some(acc)
    else
      var w := words[0];
      if !DashLed(w) then Parse(flags, words[1..], acc.(pos := acc.pos + [w]))
      else if w == "--" then Some(acc.(pos := acc.pos + words[1..]))
      else if w[1] != '-' then None
      else
        var body := w[2..];
        var eq := EqualsAt(body);
        match FindFlag(flags, body[..eq])
        case None => None
        case Some(fl) =>
          if eq < |body| then ParseRest(flags, words[1..], SetFlag(acc, fl, body[eq + 1..]))
          else if fl.kind.Switch? then ParseRest(flags, words[1..], SetFlag(acc, fl, "true"))
          else if |words| == 1 then None
          else ParseRest(flags, words[2..], SetFlag(acc, fl, words[1]))
  }

  function ParseRest(flags: seq<Flag>, words: seq<string>, acc: Option<Parsed>): Option<Parsed>
    decreases |words|, 1
  {
    if acc.None? then None else Parse(flags, words, acc.value)
  }

  function DefaultOf(kind: Kind): FlagValue {
    match kind
    case Text => Str("")
    case Number(default, _) => Num(default)
    case Repeatable => List([])
    case Switch => On(false)
  }

  function Defaults(flags: seq<Flag>): Values {
    if flags == [] then map[]
    else Defaults(flags[..|flags| - 1])[flags[|flags| - 1].name := DefaultOf(flags[|flags| - 1].kind)]
  }

  function ParseCommand(flags: seq<Flag>, words: seq<string>): Option<Parsed> {
    Parse(flags, words, Parsed([], Defaults(flags), {}))
  }

  /** The required flags are present: as flags, or by value when a deprecated
      spelling may have set them. */
  predicate RequiredMet(flags: seq<Flag>, p: Parsed) {
    forall i | 0 <= i < |flags| && flags[i].required ::
      if flags[i].oldName == "" then flags[i].name in p.changed
      else flags[i].kind.Text? && flags[i].name in p.vals ==> p.vals[flags[i].name] != Str("")
  }

  /** The check at the top of run(): the first required flag with a deprecated
      spelling whose text is empty. */
  method MissingRequired(flags: seq<Flag>, vals: Values) returns (name: Option<string>)
    requires Typed(flags, vals)
    ensures name.None? <==>
              forall i | 0 <= i < |flags| && flags[i].required && flags[i].oldName != "" && flags[i].kind.Text? ::
                vals[flags[i].name] != Str("")
    ensures name.Some? ==>
              exists i | 0 <= i < |flags| ::
                && flags[i].name == name.value && flags[i].required && flags[i].oldName != ""
                && vals[flags[i].name] == Str("")
  {
    for i := 0 to |flags|
      invariant forall j | 0 <= j < i && flags[j].required && flags[j].oldName != "" && flags[j].kind.Text? ::
                  vals[flags[j].name] != Str("")
    {
      var fl := flags[i];
      if fl.required && fl.oldName != "" && fl.kind.Text? && vals[fl.name].s == "" {
        return Some(fl.name);
      }
    }
    name := None;
  }

  // ----- The request

  type Query = map<string, seq<string>>

  function AddAll(q: Query, key: string, vs: seq<string>): Query {
    if vs == [] then q else q[key := (if key in q then q[key] else []) + vs]
  }

  /** The query parameters of the first `i` flags, in order. */
  function QueryUpto(flags: seq<Flag>, vals: Values, i: nat): Query
    requires i <= |flags| && Typed(flags, vals)
  {
    if i == 0 then map[]
    else
      var q, fl := QueryUpto(flags, vals, i - 1), flags[i - 1];
      var v := vals[fl.name];
      if fl.query == "" then q
      else match fl.kind
        case Switch => if v.b then q[fl.query := ["true"]] else q
        case Number(_, omitZero) => if omitZero && v.n == 0 then q else q[fl.query := [Itoa(v.n)]]
        case Repeatable => AddAll(q, fl.query, v.vs)
        case Text => if v.s != "" then q[fl.query := [v.s]] else q
  }

  function BuildQuery(flags: seq<Flag>, vals: Values): Query
    requires Typed(flags, vals)
  {
    QueryUpto(flags, vals, |flags|)
  }

  /** WithQuery replaces a parameter, WithQuerySlice adds values to one. */
  datatype RequestOption = WithQuery(key: string, value: string) | WithQuerySlice(key: string, values: seq<string>)

  /** newRequestConfig: the options in order. */
  function Apply(opts: seq<RequestOption>): Query {
    if opts == [] then map[]
    else
      var q := Apply(opts[..|opts| - 1]);
      match opts[|opts| - 1]
      case WithQuery(key, value) => q[key := [value]]
      case WithQuerySlice(key, values) => AddAll(q, key, values)
  }

  /** The loop of run() that turns flag values into request options: a switch is
      sent when on, a zero only without OmitZero, a text only when not empty. */
  method RequestOptions(flags: seq<Flag>, vals: Values) returns (opts: seq<RequestOption>)
    requires Typed(flags, vals)
    ensures Apply(opts) == BuildQuery(flags, vals)
  {
    opts := [];
    for i := 0 to |flags|
      invariant Apply(opts) == QueryUpto(flags, vals, i)
    {
      var fl := flags[i];
      if fl.query == "" {
        continue;
      }
      ghost var before := opts;
      match fl.kind {
        case Switch =>
          if vals[fl.name].b { opts := opts + [WithQuery(fl.query, "true")]; }
        case Number(_, omitZero) =>
          if omitZero && vals[fl.name].n == 0 { continue; }
          opts := opts + [WithQuery(fl.query, Itoa(vals[fl.name].n))];
        case Repeatable =>
          if |vals[fl.name].vs| > 0 { opts := opts + [WithQuerySlice(fl.query, vals[fl.name].vs)]; }
        case Text =>
          if vals[fl.name].s != "" { opts := opts + [WithQuery(fl.query, vals[fl.name].s)]; }
      }
      assert |opts| == |before| + 1 ==> opts[..|before|] == before;
    }
  }

  // ----- The hint replays

  function CleanAll(vs: seq<string>, ctl: Controls): (r: seq<string>)
    ensures |r| == |vs|
  {
    if vs == [] then [] else [Clean(vs[0], ctl)] + CleanAll(vs[1..], ctl)
  }

  function CleanValue(v: FlagValue, ctl: Controls): FlagValue {
    match v
    case Str(s) => Str(Clean(s, ctl))
    case List(vs) => List(CleanAll(vs, ctl))
    case _ => v
  }

  function CleanValues(vals: Values, ctl: Controls): Values {
    map name | name in vals :: CleanValue(vals[name], ctl)
  }

  /** Whether the hint prints the flag at all. */
  predicate Shown(fl: Flag, v: FlagValue) { v != DefaultOf(fl.kind) }

  /** The parser's state after the flags before index `i`. */
  function ValuesUpto(flags: seq<Flag>, next: string, vals: Values, i: nat, ctl: Controls): Values
    requires i <= |flags| && Typed(flags, vals)
  {
    if i == 0 then Defaults(flags)
    else
      var before, fl := ValuesUpto(flags, next, vals, i - 1, ctl), flags[i - 1];
      if fl.name == next then before else before[fl.name := CleanValue(vals[fl.name], ctl)]
  }

  function ChangedUpto(flags: seq<Flag>, next: string, vals: Values, i: nat): set<string>
    requires i <= |flags| && Typed(flags, vals)
  {
    if i == 0 then {}
    else
      var before, fl := ChangedUpto(flags, next, vals, i - 1), flags[i - 1];
      if fl.name == next || !Shown(fl, vals[fl.name]) then before else before + {fl.name}
  }

  lemma AllButLast(flags: seq<Flag>)
    requires WellFormed(flags) && flags != []
    ensures WellFormed(flags[..|flags| - 1])
  {
    var front := flags[..|flags| - 1];
    forall i, j | 0 <= i < |front| && 0 <= j < |front| && i != j ensures Apart(front, i, j) {
      assert Apart(flags, i, j);
    }
  }

  lemma AllButFirst(flags: seq<Flag>)
    requires WellFormed(flags) && flags != []
    ensures WellFormed(flags[1..])
  {
    var back := flags[1..];
    forall i, j | 0 <= i < |back| && 0 <= j < |back| && i != j ensures Apart(back, i, j) {
      assert Apart(flags, i + 1, j + 1);
    }
  }

  lemma {:induction false} DefaultsAt(flags: seq<Flag>, j: nat)
    requires WellFormed(flags) && j < |flags|
    ensures flags[j].name in Defaults(flags) && Defaults(flags)[flags[j].name] == DefaultOf(flags[j].kind)
    decreases |flags|
  {
    if j < |flags| - 1 {
      assert Apart(flags, j, |flags| - 1);
      AllButLast(flags);
      DefaultsAt(flags[..|flags| - 1], j);
    }
  }

  lemma {:induction false} DefaultsNames(flags: seq<Flag>)
    ensures forall name | name in Defaults(flags) :: Names(flags, name)
    decreases |flags|
  {
    if flags != [] {
      var front := flags[..|flags| - 1];
      DefaultsNames(front);
      forall name | name in Defaults(flags) ensures Names(flags, name) {
        if name in Defaults(front) {
          var i :| 0 <= i < |front| && front[i].name == name;
          assert flags[i].name == name;
        }
      }
    }
  }

  lemma {:induction false} ValuesUptoAt(flags: seq<Flag>, next: string, vals: Values, i: nat, j: nat, ctl: Controls)
    requires WellFormed(flags) && i <= |flags| && Typed(flags, vals) && j < |flags|
    ensures var name := flags[j].name;
            var u := ValuesUpto(flags, next, vals, i, ctl);
            && name in u
            && u[name] == if j < i && name != next then CleanValue(vals[name], ctl) else DefaultOf(flags[j].kind)
    decreases i
  {
    if i == 0 {
      DefaultsAt(flags, j);
    } else {
      ValuesUptoAt(flags, next, vals, i - 1, j, ctl);
      assert j != i - 1 ==> Apart(flags, j, i - 1);
    }
  }

  lemma {:induction false} ValuesUptoNames(flags: seq<Flag>, next: string, vals: Values, i: nat, ctl: Controls)
    requires i <= |flags| && Typed(flags, vals)
    ensures forall name | name in ValuesUpto(flags, next, vals, i, ctl) :: Names(flags, name)
    decreases i
  {
    if i == 0 {
      DefaultsNames(flags);
    } else {
      ValuesUptoNames(flags, next, vals, i - 1, ctl);
    }
  }

  lemma {:induction false} FindsFlag(flags: seq<Flag>, i: nat)
    requires WellFormed(flags) && i < |flags|
    ensures FindFlag(flags, flags[i].name) == Some(flags[i])
    decreases i
  {
    if i > 0 {
      assert flags[1..][i - 1] == flags[i] && Apart(flags, i, 0);
      AllButFirst(flags);
      FindsFlag(flags[1..], i - 1);
    }
  }

  /** `--name text` sets the flag and nothing else. */
  lemma {:induction false} ParsePair(flags: seq<Flag>, i: nat, text: string, tail: seq<string>, acc: Parsed)
    requires WellFormed(flags) && i < |flags| && !flags[i].kind.Switch?
    ensures Parse(flags, ["--" + flags[i].name, text] + tail, acc) ==
            ParseRest(flags, tail, SetFlag(acc, flags[i], text))
  {
    var w, words := "--" + flags[i].name, ["--" + flags[i].name, text] + tail;
    assert w[2..] == flags[i].name && words[0] == w && words[1] == text && words[2..] == tail;
    assert EqualsAt(flags[i].name) == |flags[i].name|;
    assert flags[i].name[..|flags[i].name|] == flags[i].name;
    FindsFlag(flags, i);
  }

  lemma RepeatMeanings(name: string, vs: seq<string>, ctl: Controls)
    requires vs != []
    ensures Meanings(RepeatParts(name, vs), ctl) ==
            ["--" + name, Clean(vs[0], ctl)] + Meanings(RepeatParts(name, vs[1..]), ctl)
  {
    MeaningsConcat([Raw("--" + name), Value(vs[0])], RepeatParts(name, vs[1..]), ctl);
    PairMeaning(name, Value(vs[0]), ctl);
  }

  lemma RepeatWords(name: string, vs: seq<string>, tail: seq<string>, ctl: Controls)
    requires vs != []
    ensures Meanings(RepeatParts(name, vs), ctl) + tail ==
            ["--" + name, Clean(vs[0], ctl)] + (Meanings(RepeatParts(name, vs[1..]), ctl) + tail)
  {
    RepeatMeanings(name, vs, ctl);
    Regroup(["--" + name, Clean(vs[0], ctl)], Meanings(RepeatParts(name, vs[1..]), ctl), tail);
  }

  lemma Regroup(a: seq<string>, b: seq<string>, c: seq<string>)
    ensures (a + b) + c == a + (b + c)
  {
  }

  lemma CleanOneMore(done: seq<string>, vs: seq<string>, ctl: Controls)
    requires vs != []
    ensures done + [Clean(vs[0], ctl)] + CleanAll(vs[1..], ctl) == done + CleanAll(vs, ctl)
  {
  }

  /** `acc` after a repeatable flag was given `vs`. */
  function Given(acc: Parsed, name: string, vs: seq<string>): Parsed {
    Parsed(acc.pos, acc.vals[name := List(vs)], if vs == [] then acc.changed else acc.changed + {name})
  }

  lemma GiveOneMore(acc: Parsed, fl: Flag, vs: seq<string>, text: string)
    requires fl.kind.Repeatable?
    ensures SetFlag(Given(acc, fl.name, vs), fl, text) == Some(Given(acc, fl.name, vs + [text]))
  {
    var more := List(vs + [text]);
    assert acc.vals[fl.name := List(vs)][fl.name := more] == acc.vals[fl.name := more];
  }

  lemma ParseRepeat(flags: seq<Flag>, i: nat, done: seq<string>, text: string, rest: seq<string>, acc: Parsed)
    requires WellFormed(flags) && i < |flags| && flags[i].kind.Repeatable?
    ensures Parse(flags, ["--" + flags[i].name, text] + rest, Given(acc, flags[i].name, done)) ==
            Parse(flags, rest, Given(acc, flags[i].name, done + [text]))
  {
    ParsePair(flags, i, text, rest, Given(acc, flags[i].name, done));
    GiveOneMore(acc, flags[i], done, text);
  }

  lemma {:induction false} ParseRepeats(flags: seq<Flag>, i: nat, done: seq<string>, vs: seq<string>,
                                        tail: seq<string>, acc: Parsed, ctl: Controls)
    requires WellFormed(flags) && i < |flags| && flags[i].kind.Repeatable?
    ensures Parse(flags, Meanings(RepeatParts(flags[i].name, vs), ctl) + tail, Given(acc, flags[i].name, done)) ==
            Parse(flags, tail, Given(acc, flags[i].name, done + CleanAll(vs, ctl)))
    decreases |vs|
  {
    var name := flags[i].name;
    if vs == [] {
      assert Meanings([], ctl) + tail == tail && done + [] == done;
    } else {
      var rest := Meanings(RepeatParts(name, vs[1..]), ctl) + tail;
      var text := Clean(vs[0], ctl);
      RepeatWords(name, vs, tail, ctl);
      ParseRepeat(flags, i, done, text, rest, acc);
      ParseRepeats(flags, i, done + [text], vs[1..], tail, acc, ctl);
      CleanOneMore(done, vs, ctl);
    }
  }

  lemma PairMeaning(name: string, p: Part, ctl: Controls)
    ensures Meanings([Raw("--" + name), p], ctl) == ["--" + name, Meaning(p, ctl)]
  {
    assert [Raw("--" + name), p][1..] == [p];
  }

  lemma ItoaParses(n: int)
    requires IsInt64(n)
    ensures ParseFlagInt(Itoa(n)) == Some(n) && AllSafe(Itoa(n))
  {
    ItoaRoundTrip(n);
    var digits := NatToDigits(if n < 0 then -n else n);
    assert SkipSign(Itoa(n)) == digits;
    if n == 0 { assert |NatToDigits(0)| == 1; }
    forall k | 0 <= k < |Itoa(n)| ensures IsSafe(Itoa(n)[k]) {
      assert n < 0 && k > 0 ==> IsDigit(digits[k - 1]);
      assert n >= 0 ==> IsDigit(digits[k]);
    }
  }

  /** What is printed for one flag sets it to its cleaned value. */
  lemma {:induction false} ParseFlagParts(flags: seq<Flag>, i: nat, v: FlagValue, tail: seq<string>, acc: Parsed,
                                          ctl: Controls)
    requires WellFormed(flags) && i < |flags| && !flags[i].kind.Switch? && Fits(v, flags[i].kind)
    requires flags[i].name in acc.vals && acc.vals[flags[i].name] == DefaultOf(flags[i].kind)
    ensures Parse(flags, Meanings(FlagParts(flags[i], v), ctl) + tail, acc) ==
            Parse(flags, tail, Parsed(acc.pos, acc.vals[flags[i].name := CleanValue(v, ctl)],
                                      if Shown(flags[i], v) then acc.changed + {flags[i].name} else acc.changed))
  {
    var fl := flags[i];
    match fl.kind {
      case Repeatable =>
        assert acc.vals[fl.name := List([])] == acc.vals;
        ParseRepeats(flags, i, [], v.vs, tail, acc, ctl);
        assert [] + CleanAll(v.vs, ctl) == CleanAll(v.vs, ctl);
      case Number(default, _) =>
        if Shown(fl, v) {
          PairMeaning(fl.name, Raw(Itoa(v.n)), ctl);
          ItoaParses(v.n);
          ParsePair(flags, i, Itoa(v.n), tail, acc);
        } else {
          assert Meanings([], ctl) + tail == tail && acc.vals[fl.name := v] == acc.vals;
        }
      case Text =>
        if Shown(fl, v) {
          PairMeaning(fl.name, Value(v.s), ctl);
          ParsePair(flags, i, Clean(v.s, ctl), tail, acc);
        } else {
          assert Meanings([], ctl) + tail == tail && acc.vals[fl.name := v] == acc.vals;
        }
    }
  }

  /** The parser's state after the flags before index `i`. */
  function StateUpto(spec: Spec, pos: seq<string>, vals: Values, i: nat, ctl: Controls): Parsed
    requires i <= |spec.flags| && Typed(spec.flags, vals)
  {
    Parsed(pos, ValuesUpto(spec.flags, spec.nextFlag, vals, i, ctl), ChangedUpto(spec.flags, spec.nextFlag, vals, i))
  }

  /** Reading `words` takes the parser from `acc` to `next`, whatever follows. */
  ghost predicate Takes(flags: seq<Flag>, words: seq<string>, acc: Parsed, next: Parsed) {
    forall tail {:trigger Parse(flags, words + tail, acc)} ::
      Parse(flags, words + tail, acc) == Parse(flags, tail, next)
  }

  lemma TakesChain(flags: seq<Flag>, a: seq<string>, b: seq<string>, ab: seq<string>,
                   first: Parsed, second: Parsed, third: Parsed)
    requires Takes(flags, a, first, second) && Takes(flags, b, second, third) && ab == a + b
    ensures Takes(flags, ab, first, third)
  {
    forall tail ensures Parse(flags, ab + tail, first) == Parse(flags, tail, third) {
      Regroup(a, b, tail);
    }
  }

  lemma TakesNothing(flags: seq<Flag>, acc: Parsed)
    ensures Takes(flags, [], acc, acc)
  {
    forall tail: seq<string> ensures Parse(flags, [] + tail, acc) == Parse(flags, tail, acc) {
      assert [] + tail == tail;
    }
  }

  function WordsUpto(spec: Spec, vals: Values, i: nat, ctl: Controls): seq<string>
    requires Typed(spec.flags, vals) && i <= |spec.flags|
  {
    Meanings(PartsUpto(spec.flags, spec.nextFlag, vals, i), ctl)
  }

  function OwnWords(spec: Spec, vals: Values, i: nat, ctl: Controls): seq<string>
    requires Typed(spec.flags, vals) && i < |spec.flags|
  {
    Meanings(OwnParts(spec.flags, spec.nextFlag, vals, i), ctl)
  }

  /** One flag of the hint takes the parser one flag further. */
  lemma {:induction false} ParseOneFlag(spec: Spec, vals: Values, i: nat, pos: seq<string>, ctl: Controls)
    requires WellFormed(spec.flags) && NoSwitches(spec.flags) && Typed(spec.flags, vals) && i < |spec.flags|
    ensures Takes(spec.flags, OwnWords(spec, vals, i, ctl),
                  StateUpto(spec, pos, vals, i, ctl), StateUpto(spec, pos, vals, i + 1, ctl))
  {
    var before := StateUpto(spec, pos, vals, i, ctl);
    if spec.flags[i].name == spec.nextFlag {
      TakesNothing(spec.flags, before);
    } else {
      ValuesUptoAt(spec.flags, spec.nextFlag, vals, i, i, ctl);
      var words := OwnWords(spec, vals, i, ctl);
      var after := StateUpto(spec, pos, vals, i + 1, ctl);
      forall tail ensures Parse(spec.flags, words + tail, before) == Parse(spec.flags, tail, after) {
        ParseFlagParts(spec.flags, i, vals[spec.flags[i].name], tail, before, ctl);
      }
    }
  }

  lemma WordsGrow(spec: Spec, vals: Values, i: nat, ctl: Controls)
    requires Typed(spec.flags, vals) && i < |spec.flags|
    ensures WordsUpto(spec, vals, i + 1, ctl) == WordsUpto(spec, vals, i, ctl) + OwnWords(spec, vals, i, ctl)
  {
    MeaningsConcat(PartsUpto(spec.flags, spec.nextFlag, vals, i), OwnParts(spec.flags, spec.nextFlag, vals, i), ctl);
  }

  /** What is printed for the flags before `i` takes the parser through them. */
  ghost predicate TakesUpto(spec: Spec, vals: Values, i: nat, pos: seq<string>, ctl: Controls)
    requires Typed(spec.flags, vals) && i <= |spec.flags|
  {
    Takes(spec.flags, WordsUpto(spec, vals, i, ctl), StateUpto(spec, pos, vals, 0, ctl),
          StateUpto(spec, pos, vals, i, ctl))
  }

  /** One more flag printed is one more flag read. */
  lemma ParseNextFlag(spec: Spec, vals: Values, i: nat, pos: seq<string>, ctl: Controls)
    requires WellFormed(spec.flags) && NoSwitches(spec.flags) && Typed(spec.flags, vals) && i < |spec.flags|
    requires TakesUpto(spec, vals, i, pos, ctl)
    ensures TakesUpto(spec, vals, i + 1, pos, ctl)
  {
    var earlier, own := WordsUpto(spec, vals, i, ctl), OwnWords(spec, vals, i, ctl);
    var all := WordsUpto(spec, vals, i + 1, ctl);
    var start, before, after :=
      StateUpto(spec, pos, vals, 0, ctl), StateUpto(spec, pos, vals, i, ctl), StateUpto(spec, pos, vals, i + 1, ctl);
    assert all == earlier + own by { WordsGrow(spec, vals, i, ctl); }
    assert Takes(spec.flags, own, before, after) by { ParseOneFlag(spec, vals, i, pos, ctl); }
    TakesChain(spec.flags, earlier, own, all, start, before, after);
  }

  lemma ParseNoFlag(spec: Spec, vals: Values, pos: seq<string>, ctl: Controls)
    requires Typed(spec.flags, vals)
    ensures TakesUpto(spec, vals, 0, pos, ctl)
  {
    TakesNothing(spec.flags, StateUpto(spec, pos, vals, 0, ctl));
  }

  lemma {:induction false} ParseFlagsUpto(spec: Spec, vals: Values, i: nat, pos: seq<string>, ctl: Controls)
    requires WellFormed(spec.flags) && NoSwitches(spec.flags) && Typed(spec.flags, vals) && i <= |spec.flags|
    ensures TakesUpto(spec, vals, i, pos, ctl)
    decreases i
  {
    if i == 0 {
      ParseNoFlag(spec, vals, pos, ctl);
    } else {
      var j := i - 1;
      ParseFlagsUpto(spec, vals, j, pos, ctl);
      ParseNextFlag(spec, vals, j, pos, ctl);
      assert j + 1 == i;
    }
  }

  lemma {:induction false} ParsePositionals(flags: seq<Flag>, pos: seq<string>, tail: seq<string>, acc: Parsed)
    requires forall i | 0 <= i < |pos| :: !DashLed(pos[i])
    ensures Parse(flags, pos + tail, acc) == Parse(flags, tail, acc.(pos := acc.pos + pos))
    decreases |pos|
  {
    if pos == [] {
      assert pos + tail == tail && acc.pos + pos == acc.pos;
    } else {
      assert (pos + tail)[1..] == pos[1..] + tail && acc.pos + [pos[0]] + pos[1..] == acc.pos + pos;
      ParsePositionals(flags, pos[1..], tail, acc.(pos := acc.pos + [pos[0]]));
    }
  }

  /** What the replayed command must be given: everything as before, cleaned,
      with the next page. */
  function NextValues(spec: Spec, vals: Values, value: string, ctl: Controls): Values {
    CleanValues(vals, ctl)[spec.nextFlag := Str(Clean(value, ctl))]
  }

  lemma {:induction false} PositionalMeanings(pos: seq<string>, ctl: Controls)
    ensures Meanings(PositionalParts(pos), ctl) == CleanAll(pos, ctl)
  {
    if pos != [] {
      PositionalMeanings(pos[1..], ctl);
    }
  }

  lemma AllNextValues(spec: Spec, vals: Values, value: string, ctl: Controls)
    requires WellFormed(spec.flags) && Typed(spec.flags, vals) && NextIsText(spec)
    requires OnlyFlags(spec.flags, vals)
    ensures ValuesUpto(spec.flags, spec.nextFlag, vals, |spec.flags|, ctl)[spec.nextFlag := Str(Clean(value, ctl))]
         == NextValues(spec, vals, value, ctl)
  {
    var flags := spec.flags;
    var u := ValuesUpto(flags, spec.nextFlag, vals, |flags|, ctl);
    ValuesUptoNames(flags, spec.nextFlag, vals, |flags|, ctl);
    forall name | Names(flags, name)
      ensures name in u && name in vals && (name != spec.nextFlag ==> u[name] == CleanValue(vals[name], ctl))
    {
      var j :| 0 <= j < |flags| && flags[j].name == name;
      ValuesUptoAt(flags, spec.nextFlag, vals, |flags|, j, ctl);
    }
  }

  lemma ArgumentMeanings(spec: Spec, pos: seq<string>, vals: Values, value: string, ctl: Controls)
    requires Typed(spec.flags, vals)
    ensures Meanings(ArgumentParts(spec, pos, vals, value), ctl) ==
            CleanAll(pos, ctl) + (Meanings(AllParts(spec, vals), ctl)
                                  + ["--" + spec.nextFlag, Clean(value, ctl)])
  {
    var a, b := PositionalParts(pos), AllParts(spec, vals);
    var c := [Raw("--" + spec.nextFlag), Value(value)];
    MeaningsConcat(a + b, c, ctl);
    MeaningsConcat(a, b, ctl);
    PositionalMeanings(pos, ctl);
    PairMeaning(spec.nextFlag, Value(value), ctl);
  }

  /** The last pair of the hint sets the next-page flag and completes the parse. */
  lemma {:induction false} ParseNextPair(spec: Spec, vals: Values, value: string, pos: seq<string>, ctl: Controls)
    requires WellFormed(spec.flags) && Typed(spec.flags, vals) && NextIsText(spec)
    requires OnlyFlags(spec.flags, vals)
    ensures Parse(spec.flags, ["--" + spec.nextFlag, Clean(value, ctl)],
                  StateUpto(spec, pos, vals, |spec.flags|, ctl)) ==
            Some(Parsed(pos, NextValues(spec, vals, value, ctl), ShownFlags(spec, vals)))
  {
    var k :| 0 <= k < |spec.flags| && spec.flags[k].name == spec.nextFlag && spec.flags[k].kind.Text?;
    var last := ["--" + spec.nextFlag, Clean(value, ctl)];
    assert last + [] == last;
    ParsePair(spec.flags, k, Clean(value, ctl), [], StateUpto(spec, pos, vals, |spec.flags|, ctl));
    AllNextValues(spec, vals, value, ctl);
  }

  /** The flags that appear in the hint. */
  function ShownFlags(spec: Spec, vals: Values): set<string>
    requires Typed(spec.flags, vals)
  {
    ChangedUpto(spec.flags, spec.nextFlag, vals, |spec.flags|) + {spec.nextFlag}
  }

  /** Positional arguments, then words that take the parser to `next`, then the rest. */
  lemma ParseInThree(flags: seq<Flag>, words: seq<string>, middle: seq<string>, last: seq<string>, vals: Values,
                     next: Parsed)
    requires NoneDashLed(words) && Takes(flags, middle, Parsed(words, vals, {}), next)
    ensures Parse(flags, words + (middle + last), Parsed([], vals, {})) == Parse(flags, last, next)
  {
    ParsePositionals(flags, words, middle + last, Parsed([], vals, {}));
    assert [] + words == words;
  }

  /** Parsing the hint's words restores the positional arguments and every flag,
      with the next-page flag replaced, as long as no argument looks like a flag. */
  lemma {:induction false} HintParses(spec: Spec, pos: seq<string>, vals: Values, value: string, ctl: Controls)
    requires WellFormed(spec.flags) && NoSwitches(spec.flags) && Typed(spec.flags, vals) && NextIsText(spec)
    requires forall i | 0 <= i < |pos| :: !DashLed(CleanAll(pos, ctl)[i])
    requires OnlyFlags(spec.flags, vals)
    ensures ParseCommand(spec.flags, Meanings(ArgumentParts(spec, pos, vals, value), ctl)) ==
            Some(Parsed(CleanAll(pos, ctl), NextValues(spec, vals, value, ctl), ShownFlags(spec, vals)))
  {
    var words, last := CleanAll(pos, ctl), ["--" + spec.nextFlag, Clean(value, ctl)];
    var middle := Meanings(AllParts(spec, vals), ctl);
    ArgumentMeanings(spec, pos, vals, value, ctl);
    assert StateUpto(spec, words, vals, 0, ctl) == Parsed(words, Defaults(spec.flags), {});
    ParseFlagsUpto(spec, vals, |spec.flags|, words, ctl);
    var flagsRead := StateUpto(spec, words, vals, |spec.flags|, ctl);
    ParseInThree(spec.flags, words, middle, last, Defaults(spec.flags), flagsRead);
    ParseNextPair(spec, vals, value, words, ctl);
  }

  // ----- Arguments that look like flags

  predicate IsFlagWord(flags: seq<Flag>, w: string) {
    exists i | 0 <= i < |flags| :: w == "--" + flags[i].name && !flags[i].kind.Switch?
  }

  predicate FlagsAtEven(flags: seq<Flag>, words: seq<string>) {
    forall j | 0 <= j < |words| && j % 2 == 0 :: IsFlagWord(flags, words[j])
  }

  /** Name-value pairs. */
  predicate ArePairs(flags: seq<Flag>, words: seq<string>) { |words| % 2 == 0 && FlagsAtEven(flags, words) }

  /** The parser takes one word or two for a flag, and leaves the positional
      arguments read so far. */
  lemma FlagStep(flags: seq<Flag>, words: seq<string>, acc: Parsed) returns (k: nat, next: Parsed)
    requires words != [] && DashLed(words[0]) && words[0] != "--" && Parse(flags, words, acc).Some?
    ensures 1 <= k <= 2 && k <= |words| && next.pos == acc.pos
    ensures Parse(flags, words[k..], next) == Parse(flags, words, acc)
    ensures WellFormed(flags) && IsFlagWord(flags, words[0]) ==> k == 2
  {
    var body := words[0][2..];
    var eq := EqualsAt(body);
    var fl := FindFlag(flags, body[..eq]).value;
    if WellFormed(flags) && IsFlagWord(flags, words[0]) { FlagWordIsLong(flags, words[0]); }
    if eq < |body| {
      k, next := 1, SetFlag(acc, fl, body[eq + 1..]).value;
    } else if fl.kind.Switch? {
      k, next := 1, SetFlag(acc, fl, "true").value;
    } else {
      k, next := 2, SetFlag(acc, fl, words[1]).value;
    }
  }

  lemma {:induction false} ParseKeepsPositionals(flags: seq<Flag>, words: seq<string>, acc: Parsed)
    requires Parse(flags, words, acc).Some?
    ensures acc.pos <= Parse(flags, words, acc).value.pos
    decreases |words|
  {
    if words != [] && words[0] != "--" {
      if !DashLed(words[0]) {
        ParseKeepsPositionals(flags, words[1..], acc.(pos := acc.pos + [words[0]]));
      } else {
        var k, next := FlagStep(flags, words, acc);
        ParseKeepsPositionals(flags, words[k..], next);
      }
    }
  }

  /** Positional arguments are words of the command line. */
  lemma {:induction false} PositionalsAreWords(flags: seq<Flag>, words: seq<string>, acc: Parsed, w: string)
    requires Parse(flags, words, acc).Some? && w in Parse(flags, words, acc).value.pos
    ensures w in acc.pos || w in words
    decreases |words|
  {
    if words != [] && words[0] != "--" {
      if !DashLed(words[0]) {
        PositionalsAreWords(flags, words[1..], acc.(pos := acc.pos + [words[0]]), w);
      } else {
        var k, next := FlagStep(flags, words, acc);
        PositionalsAreWords(flags, words[k..], next, w);
      }
    }
  }

  lemma EvenDrops(flags: seq<Flag>, words: seq<string>)
    requires |words| >= 2
    ensures FlagsAtEven(flags, words) ==> FlagsAtEven(flags, words[2..])
  {
    var rest := words[2..];
    forall j | 0 <= j < |rest| && j % 2 == 0 && FlagsAtEven(flags, words) ensures IsFlagWord(flags, rest[j]) {
      assert rest[j] == words[j + 2];
    }
  }

  /** A positional argument that looks like a flag is only possible right after
      the terminator "--", and then everything behind it is positional. */
  lemma {:induction false} DashLedNeedsTerminator(flags: seq<Flag>, words: seq<string>, acc: Parsed) returns (t: nat)
    requires WellFormed(flags) && Parse(flags, words, acc).Some?
    requires var pos := Parse(flags, words, acc).value.pos; |acc.pos| < |pos| && DashLed(pos[|acc.pos|])
    ensures t < |words| && words[t] == "--"
    ensures Parse(flags, words, acc).value.pos == acc.pos + words[t + 1..]
    ensures !FlagsAtEven(flags, words)
    decreases |words|
  {
    if words[0] == "--" {
      t := 0;
      if IsFlagWord(flags, words[0]) { FlagWordIsLong(flags, words[0]); }
      return;
    }
    if !DashLed(words[0]) {
      ParseKeepsPositionals(flags, words[1..], acc.(pos := acc.pos + [words[0]]));
      assert false;
    }
    var k, next := FlagStep(flags, words, acc);
    t := DashLedNeedsTerminator(flags, words[k..], next);
    t := t + k;
    if k == 2 { EvenDrops(flags, words); }
  }

  lemma FlagWordIsLong(flags: seq<Flag>, w: string)
    requires WellFormed(flags) && IsFlagWord(flags, w)
    ensures w != "--" && EqualsAt(w[2..]) == |w[2..]|
    ensures FindFlag(flags, w[2..][..|w[2..]|]).Some? && !FindFlag(flags, w[2..][..|w[2..]|]).value.kind.Switch?
  {
    var i :| 0 <= i < |flags| && w == "--" + flags[i].name && !flags[i].kind.Switch?;
    assert w[2..] == flags[i].name && w[2..][..|w[2..]|] == flags[i].name;
    FindsFlag(flags, i);
  }

  lemma {:induction false} RepeatPartsPair(flags: seq<Flag>, i: nat, vs: seq<string>, ctl: Controls)
    requires i < |flags| && !flags[i].kind.Switch?
    ensures ArePairs(flags, Meanings(RepeatParts(flags[i].name, vs), ctl))
  {
    if vs != [] {
      RepeatMeanings(flags[i].name, vs, ctl);
      RepeatPartsPair(flags, i, vs[1..], ctl);
      EvenConcat(flags, ["--" + flags[i].name, Clean(vs[0], ctl)], Meanings(RepeatParts(flags[i].name, vs[1..]), ctl),
                 Meanings(RepeatParts(flags[i].name, vs), ctl));
    }
  }

  lemma EvenConcat(flags: seq<Flag>, a: seq<string>, b: seq<string>, ab: seq<string>)
    requires ArePairs(flags, a) && ArePairs(flags, b) && ab == a + b
    ensures ArePairs(flags, ab)
  {
    forall j | 0 <= j < |ab| && j % 2 == 0 ensures IsFlagWord(flags, ab[j]) {
      if j < |a| {
        assert ab[j] == a[j];
      } else {
        var k := j - |a|;
        assert k % 2 == 0 && ab[j] == b[k];
      }
    }
  }

  lemma OwnPartsArePairs(spec: Spec, vals: Values, i: nat, ctl: Controls)
    requires Typed(spec.flags, vals) && NoSwitches(spec.flags) && i < |spec.flags|
    ensures ArePairs(spec.flags, OwnWords(spec, vals, i, ctl))
  {
    var fl := spec.flags[i];
    var own := OwnParts(spec.flags, spec.nextFlag, vals, i);
    if fl.name != spec.nextFlag && fl.kind.Repeatable? {
      RepeatPartsPair(spec.flags, i, vals[fl.name].vs, ctl);
    } else if own != [] {
      PairMeaning(fl.name, own[1], ctl);
      assert own == [Raw("--" + fl.name), own[1]];
      assert IsFlagWord(spec.flags, "--" + fl.name);
    }
  }

  lemma NextPartsArePairs(spec: Spec, vals: Values, i: nat, ctl: Controls)
    requires Typed(spec.flags, vals) && NoSwitches(spec.flags) && i < |spec.flags|
    requires ArePairs(spec.flags, WordsUpto(spec, vals, i, ctl))
    ensures ArePairs(spec.flags, WordsUpto(spec, vals, i + 1, ctl))
  {
    var earlier, own := WordsUpto(spec, vals, i, ctl), OwnWords(spec, vals, i, ctl);
    var all := WordsUpto(spec, vals, i + 1, ctl);
    assert all == earlier + own by { WordsGrow(spec, vals, i, ctl); }
    assert ArePairs(spec.flags, own) by { OwnPartsArePairs(spec, vals, i, ctl); }
    EvenConcat(spec.flags, earlier, own, all);
  }

  /** The flag part of the hint is a list of name-value pairs. */
  lemma {:induction false} PartsArePairs(spec: Spec, vals: Values, i: nat, ctl: Controls)
    requires Typed(spec.flags, vals) && NoSwitches(spec.flags) && i <= |spec.flags|
    ensures ArePairs(spec.flags, WordsUpto(spec, vals, i, ctl))
    decreases i
  {
    if i > 0 {
      var j := i - 1;
      PartsArePairs(spec, vals, j, ctl);
      NextPartsArePairs(spec, vals, j, ctl);
      assert j + 1 == i;
    }
  }

  /** If a list repeats itself at distance |tail|, the pairs of its tail show
      through everywhere. */
  lemma {:induction false} PairsShowThrough(flags: seq<Flag>, head: seq<string>, tail: seq<string>, j: nat)
    requires ArePairs(flags, tail) && tail != []
    requires var words := head + tail; words[|tail|..] == head
    requires j < |head + tail| && (j - |head|) % 2 == 0
    ensures IsFlagWord(flags, (head + tail)[j])
    decreases |head + tail| - j
  {
    var words := head + tail;
    if j >= |head| {
      assert words[j] == tail[j - |head|];
    } else {
      assert words[j] == head[j] == words[|tail|..][j] == words[j + |tail|];
      PairsShowThrough(flags, head, tail, j + |tail|);
    }
  }

  predicate NoneDashLed(pos: seq<string>) { forall i | 0 <= i < |pos| :: !DashLed(pos[i]) }

  /** The word before such a repetition is no terminator the parser can meet. */
  lemma {:induction false} NoTerminatorThere(flags: seq<Flag>, pos: seq<string>, tail: seq<string>)
    requires WellFormed(flags) && ArePairs(flags, tail) && tail != [] && pos != []
    requires var words := pos + tail; words[|tail|..] == pos
    ensures (pos + tail)[|tail| - 1] != "--" || FlagsAtEven(flags, pos + tail)
  {
    var words, t := pos + tail, |tail| - 1;
    if |pos| % 2 == 1 {
      PairsShowThrough(flags, pos, tail, t);
      FlagWordIsLong(flags, words[t]);
    } else {
      forall j | 0 <= j < |words| && j % 2 == 0 ensures IsFlagWord(flags, words[j]) {
        PairsShowThrough(flags, pos, tail, j);
      }
    }
  }

  lemma {:induction false} FirstIsLost(flags: seq<Flag>, pos: seq<string>, tail: seq<string>, acc: Parsed)
    requires WellFormed(flags) && ArePairs(flags, tail) && tail != []
    requires pos != [] && DashLed(pos[0]) && Parse(flags, pos + tail, acc).Some?
    ensures Parse(flags, pos + tail, acc).value.pos != acc.pos + pos
  {
    var words, all := pos + tail, acc.pos + pos;
    if Parse(flags, words, acc).value.pos == all {
      assert all[|acc.pos|] == pos[0];
      var t := DashLedNeedsTerminator(flags, words, acc);
      SamePrefix(acc.pos, pos, words[t + 1..]);
      assert t == |tail| - 1 && words[|tail|..] == pos;
      NoTerminatorThere(flags, pos, tail);
    }
  }

  lemma SamePrefix(a: seq<string>, b: seq<string>, c: seq<string>)
    requires a + b == a + c
    ensures b == c
  {
    assert (a + b)[|a|..] == b && (a + c)[|a|..] == c;
  }

  /** An argument that looks like a flag is never read back: behind the arguments
      stand only name-value pairs, so the parse either fails or returns other
      positional arguments. */
  lemma {:induction false} DashLedIsLost(flags: seq<Flag>, pos: seq<string>, tail: seq<string>, acc: Parsed)
    requires WellFormed(flags) && ArePairs(flags, tail) && tail != []
    requires !NoneDashLed(pos)
    ensures Parse(flags, pos + tail, acc).Some? ==> Parse(flags, pos + tail, acc).value.pos != acc.pos + pos
    decreases |pos|
  {
    if DashLed(pos[0]) {
      if Parse(flags, pos + tail, acc).Some? {
        FirstIsLost(flags, pos, tail, acc);
      }
    } else {
      assert (pos + tail)[1..] == pos[1..] + tail;
      var i :| 0 <= i < |pos| && DashLed(pos[i]);
      assert pos[1..][i - 1] == pos[i];
      DashLedIsLost(flags, pos[1..], tail, acc.(pos := acc.pos + [pos[0]]));
      assert acc.pos + [pos[0]] + pos[1..] == acc.pos + pos;
    }
  }

  // ----- Main results

  /** The words after the positional arguments: name-value pairs. */
  function PairWords(spec: Spec, vals: Values, value: string, ctl: Controls): seq<string>
    requires Typed(spec.flags, vals)
  {
    Meanings(AllParts(spec, vals), ctl) + ["--" + spec.nextFlag, Clean(value, ctl)]
  }

  lemma PairIsEven(flags: seq<Flag>, k: nat, text: string)
    requires k < |flags| && !flags[k].kind.Switch?
    ensures ArePairs(flags, ["--" + flags[k].name, text])
  {
    assert IsFlagWord(flags, "--" + flags[k].name);
  }

  lemma PairWordsArePairs(spec: Spec, vals: Values, value: string, ctl: Controls)
    requires NoSwitches(spec.flags) && Typed(spec.flags, vals) && NextIsText(spec)
    ensures ArePairs(spec.flags, PairWords(spec, vals, value, ctl)) && PairWords(spec, vals, value, ctl) != []
  {
    var middle := Meanings(AllParts(spec, vals), ctl);
    var last := ["--" + spec.nextFlag, Clean(value, ctl)];
    assert ArePairs(spec.flags, middle) by {
      PartsArePairs(spec, vals, |spec.flags|, ctl);
    }
    assert ArePairs(spec.flags, last) by {
      var k :| 0 <= k < |spec.flags| && spec.flags[k].name == spec.nextFlag && spec.flags[k].kind.Text?;
      PairIsEven(spec.flags, k, Clean(value, ctl));
    }
    EvenConcat(spec.flags, middle, last, PairWords(spec, vals, value, ctl));
  }

  /** The printed command, run again, restores the cleaned positional arguments and
      flags with only the next page replaced, exactly when no cleaned argument
      looks like a flag. */
  lemma {:induction false} HintReplaysExactly(spec: Spec, pos: seq<string>, vals: Values, value: string, ctl: Controls)
    requires WellFormed(spec.flags) && NoSwitches(spec.flags) && Typed(spec.flags, vals) && NextIsText(spec)
    requires OnlyFlags(spec.flags, vals)
    ensures var p := ParseCommand(spec.flags, Meanings(ArgumentParts(spec, pos, vals, value), ctl));
            (p.Some? && p.value.pos == CleanAll(pos, ctl) && p.value.vals == NextValues(spec, vals, value, ctl))
            <==> NoneDashLed(CleanAll(pos, ctl))
  {
    var words := CleanAll(pos, ctl);
    if NoneDashLed(words) {
      HintParses(spec, pos, vals, value, ctl);
    } else {
      ArgumentMeanings(spec, pos, vals, value, ctl);
      PairWordsArePairs(spec, vals, value, ctl);
      var start := Parsed([], Defaults(spec.flags), {});
      DashLedIsLost(spec.flags, words, PairWords(spec, vals, value, ctl), start);
      assert start.pos + words == words;
    }
  }

  lemma {:induction false} JoinNests(head: seq<string>, tail: seq<string>)
    requires head != []
    ensures Join([Join(head)] + tail) == Join(head + tail)
  {
    if |head| == 1 {
      assert [Join(head)] + tail == head + tail;
    } else {
      JoinNests(head[1..], tail);
      assert (head + tail)[1..] == head[1..] + tail;
      assert ([Join(head)] + tail)[1..] == tail && ([Join(head[1..])] + tail)[1..] == tail;
      if tail == [] {
        assert [Join(head)] + tail == [Join(head)] && [Join(head[1..])] + tail == [Join(head[1..])];
      }
    }
  }

  function RawParts(words: seq<string>): (r: seq<Part>)
    ensures |r| == |words|
  {
    if words == [] then [] else [Raw(words[0])] + RawParts(words[1..])
  }

  lemma WrittenFirst(p: Part, parts: seq<Part>, ctl: Controls)
    ensures WrittenAll([p] + parts, ctl) == [Written(p, ctl)] + WrittenAll(parts, ctl)
  {
    assert ([p] + parts)[1..] == parts;
  }

  lemma {:induction false} RawPartsWritten(words: seq<string>, parts: seq<Part>, ctl: Controls)
    ensures WrittenAll(RawParts(words) + parts, ctl) == words + WrittenAll(parts, ctl)
  {
    if words == [] {
      assert RawParts(words) + parts == parts;
    } else {
      RawPartsWritten(words[1..], parts, ctl);
      WrittenFirst(Raw(words[0]), RawParts(words[1..]) + parts, ctl);
      assert RawParts(words) + parts == [Raw(words[0])] + (RawParts(words[1..]) + parts);
    }
  }

  lemma {:induction false} RawPartsMean(words: seq<string>, ctl: Controls)
    ensures Meanings(RawParts(words), ctl) == words
  {
    if words != [] {
      RawPartsMean(words[1..], ctl);
    }
  }

  predicate AllPrintable(parts: seq<Part>) { forall i | 0 <= i < |parts| :: Printable(parts[i]) }

  lemma {:induction false} RepeatPrintable(name: string, vs: seq<string>)
    requires NameOK(name)
    ensures AllPrintable(RepeatParts(name, vs))
  {
    if vs != [] {
      RepeatPrintable(name, vs[1..]);
    }
  }

  lemma OwnPartsPrintable(spec: Spec, vals: Values, i: nat)
    requires WellFormed(spec.flags) && Typed(spec.flags, vals) && i < |spec.flags|
    ensures AllPrintable(OwnParts(spec.flags, spec.nextFlag, vals, i))
  {
    var fl := spec.flags[i];
    assert NameOK(fl.name);
    match fl.kind {
      case Repeatable => RepeatPrintable(fl.name, vals[fl.name].vs);
      case Number(_, _) => ItoaParses(vals[fl.name].n);
      case _ =>
    }
  }

  lemma PrintableConcat(a: seq<Part>, b: seq<Part>)
    requires AllPrintable(a) && AllPrintable(b)
    ensures AllPrintable(a + b)
  {
  }

  lemma {:induction false} PartsPrintable(spec: Spec, vals: Values, i: nat)
    requires WellFormed(spec.flags) && Typed(spec.flags, vals) && i <= |spec.flags|
    ensures AllPrintable(PartsUpto(spec.flags, spec.nextFlag, vals, i))
    decreases i
  {
    if i > 0 {
      PartsPrintable(spec, vals, i - 1);
      var earlier, own := PartsUpto(spec.flags, spec.nextFlag, vals, i - 1),
                          OwnParts(spec.flags, spec.nextFlag, vals, i - 1);
      assert AllPrintable(own) by { OwnPartsPrintable(spec, vals, i - 1); }
      PrintableConcat(earlier, own);
      assert PartsUpto(spec.flags, spec.nextFlag, vals, i) == earlier + own;
    }
  }

  lemma {:induction false} ValuesPrintable(pos: seq<string>)
    ensures AllPrintable(PositionalParts(pos))
  {
    if pos != [] {
      ValuesPrintable(pos[1..]);
    }
  }

  lemma {:induction false} RawPrintable(words: seq<string>)
    requires forall i | 0 <= i < |words| :: words[i] != "" && AllSafe(words[i])
    ensures AllPrintable(RawParts(words))
  {
    if words != [] {
      RawPrintable(words[1..]);
    }
  }

  lemma ArgumentsPrintable(spec: Spec, pos: seq<string>, vals: Values, value: string)
    requires WellFormed(spec.flags) && Typed(spec.flags, vals) && NextIsText(spec)
    ensures AllPrintable(ArgumentParts(spec, pos, vals, value))
  {
    var k :| 0 <= k < |spec.flags| && spec.flags[k].name == spec.nextFlag && spec.flags[k].kind.Text?;
    assert NameOK(spec.flags[k].name);
    PartsPrintable(spec, vals, |spec.flags|);
    ValuesPrintable(pos);
  }

  /** A command path as cobra has it: plain words. */
  predicate PlainWords(words: seq<string>) {
    words != [] && forall i | 0 <= i < |words| :: words[i] != "" && AllSafe(words[i])
  }

  lemma LineTokenizes(command: seq<string>, args: seq<Part>, ctl: Controls)
    requires PlainWords(command) && AllPrintable(args)
    ensures Tokenize(Join([Join(command)] + WrittenAll(args, ctl))) == Some(command + Meanings(args, ctl))
  {
    RawPrintable(command);
    RawPartsWritten(command, args, ctl);
    RawPartsMean(command, ctl);
    MeaningsConcat(RawParts(command), args, ctl);
    JoinNests(command, WrittenAll(args, ctl));
    ShellRoundTrip(RawParts(command) + args, ctl);
  }

  /** The line PrintHint prints. */
  function HintLine(spec: Spec, command: seq<string>, pos: seq<string>, vals: Values, value: string,
                    ctl: Controls): string
    requires Typed(spec.flags, vals)
  {
    Join([Join(command)] + WrittenAll(ArgumentParts(spec, pos, vals, value), ctl))
  }

  /** The shell splits the printed line into the command's own words and the
      words HintReplaysExactly is about. */
  lemma HintLineTokenizes(spec: Spec, command: seq<string>, pos: seq<string>, vals: Values, value: string,
                          ctl: Controls)
    requires WellFormed(spec.flags) && Typed(spec.flags, vals) && NextIsText(spec) && PlainWords(command)
    ensures Tokenize(HintLine(spec, command, pos, vals, value, ctl)) ==
            Some(command + Meanings(ArgumentParts(spec, pos, vals, value), ctl))
  {
    ArgumentsPrintable(spec, pos, vals, value);
    LineTokenizes(command, ArgumentParts(spec, pos, vals, value), ctl);
  }

  // ----- Required flags

  lemma {:induction false} ChangedUptoAt(flags: seq<Flag>, next: string, vals: Values, i: nat, j: nat)
    requires WellFormed(flags) && Typed(flags, vals) && i <= |flags| && j < |flags|
    ensures flags[j].name in ChangedUpto(flags, next, vals, i) <==>
            j < i && flags[j].name != next && Shown(flags[j], vals[flags[j].name])
    decreases i
  {
    if i > 0 {
      ChangedUptoAt(flags, next, vals, i - 1, j);
      assert j != i - 1 ==> Apart(flags, j, i - 1);
    }
  }

  /** Every required flag has a value the hint prints. */
  predicate RequiredShown(spec: Spec, vals: Values)
    requires Typed(spec.flags, vals)
  {
    forall i | 0 <= i < |spec.flags| && spec.flags[i].required && spec.flags[i].name != spec.nextFlag ::
      spec.flags[i].oldName == "" || spec.flags[i].kind.Text? ==> Shown(spec.flags[i], vals[spec.flags[i].name])
  }

  /** The replayed command passes the required-flag checks exactly when no
      required flag was given its default value explicitly. */
  lemma ReplayAccepted(spec: Spec, pos: seq<string>, vals: Values, value: string, ctl: Controls)
    requires WellFormed(spec.flags) && Typed(spec.flags, vals) && NextIsText(spec) && value != ""
    ensures RequiredMet(spec.flags,
                        Parsed(CleanAll(pos, ctl), NextValues(spec, vals, value, ctl), ShownFlags(spec, vals)))
            <==> RequiredShown(spec, vals)
  {
    forall i | 0 <= i < |spec.flags|
      ensures var fl := spec.flags[i];
              && (fl.name in ShownFlags(spec, vals) <==> fl.name == spec.nextFlag || Shown(fl, vals[fl.name]))
              && (fl.kind.Text? ==>
                   (NextValues(spec, vals, value, ctl)[fl.name] != Str("") <==>
                    fl.name == spec.nextFlag || Shown(fl, vals[fl.name])))
    {
      ChangedUptoAt(spec.flags, spec.nextFlag, vals, |spec.flags|, i);
    }
  }

  // ----- The replayed request

  predicate CleanFlags(vals: Values, ctl: Controls) {
    forall name | name in vals ::
      match vals[name]
      case Str(s) => IsClean(s, ctl)
      case List(vs) => forall i | 0 <= i < |vs| :: IsClean(vs[i], ctl)
      case _ => true
  }

  lemma {:induction false} CleanAllIsItself(vs: seq<string>, ctl: Controls)
    requires forall i | 0 <= i < |vs| :: IsClean(vs[i], ctl)
    ensures CleanAll(vs, ctl) == vs
  {
    if vs != [] {
      CleanIsItself(vs[0], ctl);
      CleanAllIsItself(vs[1..], ctl);
    }
  }

  lemma CleanFlagsStay(spec: Spec, vals: Values, value: string, ctl: Controls)
    requires CleanFlags(vals, ctl) && IsClean(value, ctl)
    ensures NextValues(spec, vals, value, ctl) == vals[spec.nextFlag := Str(value)]
  {
    CleanIsItself(value, ctl);
    forall name | name in vals ensures CleanValue(vals[name], ctl) == vals[name] {
      match vals[name] {
        case Str(s) => CleanIsItself(s, ctl);
        case List(vs) => CleanAllIsItself(vs, ctl);
        case _ =>
      }
    }
    assert CleanValues(vals, ctl) == vals;
  }

  predicate SameAt(p: Query, q: Query, key: string) {
    (key in p <==> key in q) && (key in p && key in q ==> p[key] == q[key])
  }

  /** Replacing a text flag's value changes its own query parameter only. */
  lemma {:induction false} OtherParametersStay(flags: seq<Flag>, vals: Values, n: nat, value: string, key: string,
                                               i: nat)
    requires n < |flags| && flags[n].kind.Text? && key != flags[n].query && i <= |flags|
    requires WellFormed(flags) && Typed(flags, vals) && Typed(flags, vals[flags[n].name := Str(value)])
    ensures SameAt(QueryUpto(flags, vals[flags[n].name := Str(value)], i), QueryUpto(flags, vals, i), key)
    decreases i
  {
    if i > 0 {
      OtherParametersStay(flags, vals, n, value, key, i - 1);
      assert n != i - 1 ==> Apart(flags, n, i - 1);
    }
  }

  /** Flag `n` sends under a name that no other flag sends under. */
  predicate OwnName(flags: seq<Flag>, n: nat)
    requires n < |flags|
  {
    flags[n].query != "" && forall j | 0 <= j < |flags| && j != n :: flags[j].query != flags[n].query
  }

  predicate Is(q: Query, key: string, vs: seq<string>) {
    if vs == [] then key !in q else key in q && q[key] == vs
  }

  /** A flag of another name, or of none, leaves a parameter as it is. */
  lemma OtherFlagLeaves(flags: seq<Flag>, vals: Values, i: nat, key: string)
    requires Typed(flags, vals) && i < |flags| && (flags[i].query != key || key == "")
    ensures SameAt(QueryUpto(flags, vals, i + 1), QueryUpto(flags, vals, i), key)
  {
  }

  /** A flag of that name that is not repeatable: its value, if it has one to send,
      replaces what was there. Numbers are sent unless they are a zero to be
      omitted, switches when on, texts unless empty. */
  lemma SingleFlagSets(flags: seq<Flag>, vals: Values, i: nat)
    requires Typed(flags, vals) && i < |flags| && flags[i].query != "" && !flags[i].kind.Repeatable?
    ensures var q, v := QueryUpto(flags, vals, i + 1), vals[flags[i].name];
            var sent := match flags[i].kind
              case Number(_, omitZero) => if omitZero && v.n == 0 then None else Some(Itoa(v.n))
              case Switch => if v.b then Some("true") else None
              case Repeatable => None
              case Text => if v.s == "" then None else Some(v.s);
            if sent.Some? then Is(q, flags[i].query, [sent.value])
            else SameAt(q, QueryUpto(flags, vals, i), flags[i].query)
  {
  }

  /** A repeatable flag adds its values, in order. */
  lemma RepeatableFlagAdds(flags: seq<Flag>, vals: Values, i: nat, earlier: seq<string>)
    requires Typed(flags, vals) && i < |flags| && flags[i].query != "" && flags[i].kind.Repeatable?
    requires Is(QueryUpto(flags, vals, i), flags[i].query, earlier)
    ensures Is(QueryUpto(flags, vals, i + 1), flags[i].query, earlier + vals[flags[i].name].vs)
  {
    if vals[flags[i].name].vs == [] { assert earlier + [] == earlier; }
    if earlier == [] { assert [] + vals[flags[i].name].vs == vals[flags[i].name].vs; }
  }

  /** Before a flag with a name of its own that name is not in the query, and after
      it stays what the flag made of it. */
  lemma {:induction false} OwnNameStays(flags: seq<Flag>, vals: Values, n: nat, i: nat)
    requires WellFormed(flags) && Typed(flags, vals) && n < |flags| && i <= |flags| && OwnName(flags, n)
    ensures if i <= n then flags[n].query !in QueryUpto(flags, vals, i)
            else SameAt(QueryUpto(flags, vals, i), QueryUpto(flags, vals, n + 1), flags[n].query)
    decreases i
  {
    if i > 0 && i != n + 1 {
      OwnNameStays(flags, vals, n, i - 1);
      OtherFlagLeaves(flags, vals, i - 1, flags[n].query);
    }
  }

  /** A flag with a name of its own is sent as its value, kind by kind. */
  lemma OwnParameterExactly(flags: seq<Flag>, vals: Values, n: nat)
    requires WellFormed(flags) && Typed(flags, vals) && n < |flags| && OwnName(flags, n)
    ensures var q, v := BuildQuery(flags, vals), vals[flags[n].name];
            match flags[n].kind
            case Number(_, omitZero) => Is(q, flags[n].query, if omitZero && v.n == 0 then [] else [Itoa(v.n)])
            case Switch => Is(q, flags[n].query, if v.b then ["true"] else [])
            case Repeatable => Is(q, flags[n].query, v.vs)
            case Text => Is(q, flags[n].query, if v.s == "" then [] else [v.s])
  {
    OwnNameStays(flags, vals, n, n);
    OwnNameStays(flags, vals, n, |flags|);
    if flags[n].kind.Repeatable? {
      RepeatableFlagAdds(flags, vals, n, []);
      assert [] + vals[flags[n].name].vs == vals[flags[n].name].vs;
    } else {
      SingleFlagSets(flags, vals, n);
    }
  }

  /** Whether flag `j` sends a single value under that name. */
  predicate SendsSingle(flags: seq<Flag>, vals: Values, key: string, j: nat)
    requires j < |flags| && Typed(flags, vals)
  {
    var fl, v := flags[j], vals[flags[j].name];
    fl.query == key &&
    match fl.kind
    case Number(_, omitZero) => !(omitZero && v.n == 0)
    case Switch => v.b
    case Repeatable => false
    case Text => v.s != ""
  }

  /** The values of the repeatable flags of that name, from index `from` to `upto`. */
  function Repeats(flags: seq<Flag>, vals: Values, key: string, from: nat, upto: nat): seq<string>
    requires from <= upto <= |flags| && Typed(flags, vals)
    decreases upto
  {
    if from == upto then []
    else
      var earlier, fl := Repeats(flags, vals, key, from, upto - 1), flags[upto - 1];
      if fl.query == key && fl.kind.Repeatable? then earlier + vals[fl.name].vs else earlier
  }

  /** Flag `i` sends no single value under the name. */
  lemma NextRepeats(flags: seq<Flag>, vals: Values, key: string, i: nat, from: nat, head: seq<string>)
    requires WellFormed(flags) && Typed(flags, vals) && from <= i < |flags| && key != ""
    requires !SendsSingle(flags, vals, key, i)
    requires Is(QueryUpto(flags, vals, i), key, head + Repeats(flags, vals, key, from, i))
    ensures Is(QueryUpto(flags, vals, i + 1), key, head + Repeats(flags, vals, key, from, i + 1))
  {
    if flags[i].query != key {
      OtherFlagLeaves(flags, vals, i, key);
    } else if flags[i].kind.Repeatable? {
      RepeatableFlagAdds(flags, vals, i, head + Repeats(flags, vals, key, from, i));
      Regroup(head, Repeats(flags, vals, key, from, i), vals[flags[i].name].vs);
    } else {
      SingleFlagSets(flags, vals, i);
    }
  }

  /** Flags that share a name: the last single value, that of flag `m`, replaces
      everything before it, and repeatable flags add their values, in order. */
  lemma {:induction false} SharedName(flags: seq<Flag>, vals: Values, key: string, i: nat, m: nat, value: string)
    requires WellFormed(flags) && Typed(flags, vals) && m < i <= |flags| && key != ""
    requires SendsSingle(flags, vals, key, m) && forall j | m < j < i :: !SendsSingle(flags, vals, key, j)
    requires Is(QueryUpto(flags, vals, m + 1), key, [value])
    ensures Is(QueryUpto(flags, vals, i), key, [value] + Repeats(flags, vals, key, m + 1, i))
    decreases i
  {
    if m == i - 1 {
      assert [value] + [] == [value];
    } else {
      SharedName(flags, vals, key, i - 1, m, value);
      NextRepeats(flags, vals, key, i - 1, m + 1, [value]);
    }
  }

  /** Without a single value a name has the repeated ones; so a name under which
      nothing is sent, and the empty name, is not in the query. */
  lemma {:induction false} RepeatedName(flags: seq<Flag>, vals: Values, key: string, i: nat)
    requires WellFormed(flags) && Typed(flags, vals) && i <= |flags|
    requires key == "" || forall j | 0 <= j < i :: !SendsSingle(flags, vals, key, j)
    ensures Is(QueryUpto(flags, vals, i), key, if key == "" then [] else Repeats(flags, vals, key, 0, i))
    decreases i
  {
    if i > 0 {
      RepeatedName(flags, vals, key, i - 1);
      if key == "" {
        OtherFlagLeaves(flags, vals, i - 1, key);
      } else {
        assert [] + Repeats(flags, vals, key, 0, i - 1) == Repeats(flags, vals, key, 0, i - 1);
        NextRepeats(flags, vals, key, i - 1, 0, []);
        assert [] + Repeats(flags, vals, key, 0, i) == Repeats(flags, vals, key, 0, i);
      }
    }
  }

  /** `now` is `before` with the parameter of flag `n` set to `value`, and
      nothing else changed. */
  ghost predicate OnlyNextChanged(flags: seq<Flag>, n: nat, value: string, before: Query, now: Query)
    requires n < |flags|
  {
    && (forall key | key != flags[n].query :: SameAt(now, before, key))
    && (OwnName(flags, n) ==> flags[n].query in now && now[flags[n].query] == [value])
  }

  lemma NextRequest(flags: seq<Flag>, vals: Values, n: nat, value: string)
    requires n < |flags| && flags[n].kind.Text? && value != ""
    requires WellFormed(flags) && Typed(flags, vals) && Typed(flags, vals[flags[n].name := Str(value)])
    ensures OnlyNextChanged(flags, n, value, BuildQuery(flags, vals),
                            BuildQuery(flags, vals[flags[n].name := Str(value)]))
  {
    var after := vals[flags[n].name := Str(value)];
    forall key | key != flags[n].query
      ensures SameAt(BuildQuery(flags, after), BuildQuery(flags, vals), key)
    {
      OtherParametersStay(flags, vals, n, value, key, |flags|);
    }
    if OwnName(flags, n) {
      OwnParameterExactly(flags, after, n);
    }
  }

  lemma StaysTyped(flags: seq<Flag>, vals: Values, n: nat, value: string)
    requires WellFormed(flags) && Typed(flags, vals) && n < |flags| && flags[n].kind.Text?
    ensures Typed(flags, vals[flags[n].name := Str(value)])
  {
    var after := vals[flags[n].name := Str(value)];
    forall i | 0 <= i < |flags| ensures flags[i].name in after && Fits(after[flags[i].name], flags[i].kind) {
      assert i != n ==> Apart(flags, n, i);
    }
  }

  /** From the printed line through the shell and the flag parser to the query:
      running the hint sends the original request with exactly the next-page
      parameter replaced. */
  lemma HintReplay(spec: Spec, command: seq<string>, pos: seq<string>, vals: Values, value: string, n: nat,
                   ctl: Controls)
    requires WellFormed(spec.flags) && NoSwitches(spec.flags) && Typed(spec.flags, vals) && PlainWords(command)
    requires n < |spec.flags| && spec.flags[n].name == spec.nextFlag && spec.flags[n].kind.Text?
    requires NoneDashLed(pos) && CleanFlags(vals, ctl) && IsClean(value, ctl) && value != ""
    requires forall i | 0 <= i < |pos| :: IsClean(pos[i], ctl)
    requires OnlyFlags(spec.flags, vals)
    ensures var words := Tokenize(HintLine(spec, command, pos, vals, value, ctl));
            && words.Some? && command <= words.value
            && var p := ParseCommand(spec.flags, words.value[|command|..]);
               && p.Some? && p.value.pos == pos
               && p.value.vals == vals[spec.nextFlag := Str(value)] && Typed(spec.flags, p.value.vals)
               && (RequiredMet(spec.flags, p.value) <==> RequiredShown(spec, vals))
               && OnlyNextChanged(spec.flags, n, value, BuildQuery(spec.flags, vals),
                                  BuildQuery(spec.flags, p.value.vals))
  {
    var words := Meanings(ArgumentParts(spec, pos, vals, value), ctl);
    HintLineTokenizes(spec, command, pos, vals, value, ctl);
    assert (command + words)[|command|..] == words;
    CleanAllIsItself(pos, ctl);
    HintParses(spec, pos, vals, value, ctl);
    CleanFlagsStay(spec, vals, value, ctl);
    ReplayAccepted(spec, pos, vals, value, ctl);
    StaysTyped(spec.flags, vals, n, value);
    NextRequest(spec.flags, vals, n, value);
  }
}
