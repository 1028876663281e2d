/** Command aliases: splicing an expansion into the command line. */
module AliasExpansion {
  import opened Wrappers

  /** The root command: its dispatchable names and the spellings of its
      persistent flags that take a separate value. */
  datatype Root = Root(names: set<string>, valueFlags: set<string>)

  /** The alias store and shlex.Split, which fails on unbalanced quotes. */
  datatype Store = Store(aliases: map<string, string>, split: string -> Option<seq<string>>)

  datatype Expansion = Expanded(args: seq<string>) | BadExpansion(args: seq<string>)

  predicate Builtin(root: Root, name: string) { name == "help" || name in root.names }

  predicate IsFlag(arg: string) { arg != "" && arg[0] == '-' }

  /** The position of the first word from `i` on that is neither a flag nor the
      value of one; the number of words if there is none. */
  function CommandFrom(root: Root, args: seq<string>, i: nat): (k: nat)
    requires i <= |args|
    ensures i <= k <= |args|
    ensures k < |args| ==> !IsFlag(args[k])
    decreases |args| - i
  {
    if i == |args| || !IsFlag(args[i]) then i
    else if args[i] in root.valueFlags && i + 1 < |args| then CommandFrom(root, args, i + 2)
    else CommandFrom(root, args, i + 1)
  }

  /** The word expandAlias looks at, if any. args[0] is the program. */
  function CommandIndex(root: Root, args: seq<string>): (k: Option<nat>)
    ensures k.Some? ==> 1 <= k.value < |args| && !IsFlag(args[k.value])
  {
    if |args| < 2 then None
    else
      var k := CommandFrom(root, args, 1);
      if k == |args| then None else Some(k)
  }

  function Splice(args: seq<string>, k: nat, words: seq<string>): seq<string>
    requires k < |args|
  {
    args[..k] + (words + args[k + 1..])
  }

  /** The expansion that applies to a command line, if any. */
  function Applicable(root: Root, args: seq<string>, store: Store): Option<Option<seq<string>>> {
    match CommandIndex(root, args)
    case None => None
    case Some(k) =>
      if Builtin(root, args[k]) || args[k] !in store.aliases then None
      else Some(store.split(store.aliases[args[k]]))
  }

  /** expandAlias: exactly the command word is replaced, and only by an alias that
      is not a registered name; a malformed expansion leaves the line alone. */
  method ExpandAlias(root: Root, args: seq<string>, store: Store) returns (r: Expansion)
    ensures match Applicable(root, args, store)
            case None => r == Expanded(args)
            case Some(None) => r == BadExpansion(args)
            case Some(Some(words)) => r == Expanded(Splice(args, CommandIndex(root, args).value, words))
  {
    if |args| < 2 {
      return Expanded(args);
    }
    var cmdIdx := -1;
    var i := 1;
    while i < |args|
      invariant 1 <= i <= |args| && cmdIdx == -1
      invariant CommandFrom(root, args, 1) == CommandFrom(root, args, i)
    {
      var arg := args[i];
      if !IsFlag(arg) {
        cmdIdx := i;
        break;
      }
      if arg in root.valueFlags && i + 1 < |args| {
        i := i + 1;
      }
      i := i + 1;
    }
    if cmdIdx < 0 {
      return Expanded(args);
    }
    var name := args[cmdIdx];
    if Builtin(root, name) || name !in store.aliases {
      return Expanded(args);
    }
    var words := store.split(store.aliases[name]);
    if words.None? {
      return BadExpansion(args);
    }
    var newArgs := args[..cmdIdx];
    newArgs := newArgs + words.value;
    newArgs := newArgs + args[cmdIdx + 1..];
    assert newArgs == Splice(args, cmdIdx, words.value);
    r := Expanded(newArgs);
  }

  /** What ExpandAlias computes, for use in statements. */
  function Expand(root: Root, args: seq<string>, store: Store): Expansion {
    match Applicable(root, args, store)
    case None => Expanded(args)
    case Some(None) => BadExpansion(args)
    case Some(Some(words)) => Expanded(Splice(args, CommandIndex(root, args).value, words))
  }

  // ----- Expanding once is enough, exactly when

  /** The search for the command word gets, in any line that agrees with `args` up
      to that word, to the same place, and goes on from there. */
  lemma {:induction false} SamePlace(root: Root, args: seq<string>, other: seq<string>, i: nat)
    requires i <= |args| && CommandFrom(root, args, i) < |args|
    requires var k := CommandFrom(root, args, i); k < |other| && args[..k] == other[..k]
    ensures i <= |other|
    ensures var k := CommandFrom(root, args, i);
            && CommandFrom(root, other, i) == CommandFrom(root, other, k)
            && (!IsFlag(other[k]) ==> CommandFrom(root, other, i) == k)
    decreases |args| - i
  {
    var k := CommandFrom(root, args, i);
    if i < k {
      assert args[..k][i] == other[..k][i];
      if args[i] in root.valueFlags && i + 1 < |args| {
        SamePlace(root, args, other, i + 2);
      } else {
        SamePlace(root, args, other, i + 1);
      }
    }
  }

  /** The search does not look at the words before its start. */
  lemma {:induction false} SearchShifts(root: Root, front: seq<string>, words: seq<string>, i: nat)
    requires i <= |words|
    ensures CommandFrom(root, front + words, |front| + i) == |front| + CommandFrom(root, words, i)
    decreases |words| - i
  {
    if i < |words| && IsFlag(words[i]) {
      if words[i] in root.valueFlags && i + 1 < |words| {
        SearchShifts(root, front, words, i + 2);
      } else {
        SearchShifts(root, front, words, i + 1);
      }
    }
  }

  /** A list of flags passes the search on to what follows it, whose first word it
      may take for a flag's value. */
  lemma {:induction false} FlagsPassOn(root: Root, words: seq<string>, name: string, i: nat)
    requires i <= |words| && CommandFrom(root, words, i) == |words| && !IsFlag(name)
    ensures CommandFrom(root, words + [name, name], i) in {|words|, |words| + 1}
    decreases |words| - i
  {
    var line := words + [name, name];
    if i < |words| {
      if words[i] in root.valueFlags && i + 1 < |words| {
        FlagsPassOn(root, words, name, i + 2);
      } else if words[i] in root.valueFlags {
        assert CommandFrom(root, line, i) == CommandFrom(root, line, |words| + 1) == |words| + 1;
      } else {
        FlagsPassOn(root, words, name, i + 1);
      }
    }
  }

  /** A second expansion adds nothing. */
  predicate Idempotent(root: Root, args: seq<string>, store: Store) {
    Expand(root, Expand(root, args, store).args, store) == Expand(root, args, store)
  }

  /** `words` has a command word, and expanding that changes nothing. */
  predicate Final(root: Root, store: Store, words: seq<string>) {
    var j := CommandFrom(root, words, 0);
    j < |words| &&
    (Builtin(root, words[j]) || words[j] !in store.aliases || store.split(store.aliases[words[j]]) == Some([words[j]]))
  }

  /** Every alias that can be used and split has a final expansion. */
  predicate AllFinal(root: Root, store: Store) {
    forall name | name in store.aliases && !Builtin(root, name) && !IsFlag(name) ::
      match store.split(store.aliases[name])
      case None => true
      case Some(words) => Final(root, store, words)
  }

  /** A command word is found at its place whatever stands around the words. */
  lemma FoundInside(root: Root, front: seq<string>, words: seq<string>, back: seq<string>)
    requires CommandFrom(root, words, 0) < |words|
    ensures var j := CommandFrom(root, words, 0);
            var line := front + (words + back);
            CommandFrom(root, line, |front|) == |front| + j && line[|front| + j] == words[j]
  {
    var j := CommandFrom(root, words, 0);
    SearchShifts(root, front, words + back, 0);
    assert (words + back)[..j] == words[..j];
    SamePlace(root, words, words + back, 0);
  }

  lemma FrontStays(front: seq<string>, rest: seq<string>)
    ensures (front + rest)[..|front|] == front
  {
  }

  /** After words are put in place of the command word, it is their command word. */
  lemma JoinedPlace(root: Root, args: seq<string>, k: nat, front: seq<string>, words: seq<string>, back: seq<string>)
    requires CommandIndex(root, args) == Some(k) && front == args[..k] && CommandFrom(root, words, 0) < |words|
    ensures var line, j := front + (words + back), CommandFrom(root, words, 0);
            CommandIndex(root, line) == Some(k + j) && line[k + j] == words[j]
  {
    FoundInside(root, front, words, back);
    FrontStays(front, words + back);
    FoundFromStart(root, args, k, front + (words + back));
  }

  lemma FoundFromStart(root: Root, args: seq<string>, k: nat, line: seq<string>)
    requires CommandIndex(root, args) == Some(k) && k < |line| && line[..k] == args[..k]
    ensures CommandFrom(root, line, 1) == CommandFrom(root, line, k)
  {
    SamePlace(root, args, line, 1);
  }

  lemma SpliceOfItself(args: seq<string>, k: nat)
    requires k < |args|
    ensures Splice(args, k, [args[k]]) == args
  {
  }

  lemma FinalStays(root: Root, args: seq<string>, store: Store)
    requires AllFinal(root, store)
    ensures Idempotent(root, args, store)
  {
    match Applicable(root, args, store) {
      case Some(Some(words)) =>
        var k := CommandIndex(root, args).value;
        assert Final(root, store, words);
        JoinedPlace(root, args, k, args[..k], words, args[k + 1..]);
        SpliceOfItself(Splice(args, k, words), k + CommandFrom(root, words, 0));
      case _ =>
    }
  }

  /** A line on which a second expansion of an alias without a final expansion
      shows: the alias, twice more than needed. */
  function Witness(name: string): seq<string> { ["zr", name, name, name] }

  lemma SpliceChanges(args: seq<string>, k: nat, words: seq<string>)
    requires k < |args| && words != [args[k]]
    ensures Splice(args, k, words) != args
  {
    if |words| == 1 {
      assert Splice(args, k, words)[k] == words[0];
    }
  }

  /** The witness after one expansion. */
  function Once(name: string, words: seq<string>): seq<string> { ["zr"] + (words + [name, name]) }

  lemma WitnessOnce(root: Root, store: Store, name: string, words: seq<string>)
    requires name in store.aliases && !Builtin(root, name) && !IsFlag(name)
    requires store.split(store.aliases[name]) == Some(words)
    ensures Expand(root, Witness(name), store) == Expanded(Once(name, words))
  {
    assert CommandIndex(root, Witness(name)) == Some(1);
    assert Witness(name)[..1] == ["zr"] && Witness(name)[2..] == [name, name];
  }

  /** The command word is an alias of something else, or of nothing that splits. */
  lemma LineMoves(root: Root, line: seq<string>, store: Store, k: nat)
    requires CommandIndex(root, line) == Some(k)
    requires !Builtin(root, line[k]) && line[k] in store.aliases
    requires store.split(store.aliases[line[k]]) != Some([line[k]])
    ensures Expand(root, line, store) != Expanded(line)
  {
    var words := store.split(store.aliases[line[k]]);
    if words.Some? { SpliceChanges(line, k, words.value); }
  }

  lemma InnerCommand(root: Root, name: string, words: seq<string>)
    requires !IsFlag(name) && CommandFrom(root, words, 0) < |words|
    ensures var j := CommandFrom(root, words, 0);
            CommandIndex(root, Once(name, words)) == Some(1 + j) && Once(name, words)[1 + j] == words[j]
  {
    assert CommandIndex(root, Witness(name)) == Some(1) && Witness(name)[..1] == ["zr"];
    JoinedPlace(root, Witness(name), 1, ["zr"], words, [name, name]);
  }

  lemma OuterCommand(root: Root, name: string, words: seq<string>) returns (k: nat)
    requires !IsFlag(name) && CommandFrom(root, words, 0) == |words|
    ensures CommandIndex(root, Once(name, words)) == Some(k) && Once(name, words)[k] == name && words != [name]
  {
    SearchShifts(root, ["zr"], words + [name, name], 0);
    FlagsPassOn(root, words, name, 0);
    k := 1 + CommandFrom(root, words + [name, name], 0);
  }

  lemma NotFinalMoves(root: Root, store: Store, name: string)
    requires name in store.aliases && !Builtin(root, name) && !IsFlag(name)
    requires var words := store.split(store.aliases[name]);
             words.Some? && !Final(root, store, words.value)
    ensures !Idempotent(root, Witness(name), store)
  {
    var words := store.split(store.aliases[name]).value;
    WitnessOnce(root, store, name, words);
    var j := CommandFrom(root, words, 0);
    if j < |words| {
      InnerCommand(root, name, words);
      LineMoves(root, Once(name, words), store, 1 + j);
    } else {
      var k := OuterCommand(root, name, words);
      LineMoves(root, Once(name, words), store, k);
    }
  }

  /** Expanding twice is expanding once on every command line if and only if every
      usable alias has a final expansion; a question about the store alone. */
  lemma IdempotentExactly(root: Root, store: Store)
    ensures (forall args :: Idempotent(root, args, store)) <==> AllFinal(root, store)
  {
    if AllFinal(root, store) {
      forall args ensures Idempotent(root, args, store) { FinalStays(root, args, store); }
    } else {
      var name :| name in store.aliases && !Builtin(root, name) && !IsFlag(name)
        && store.split(store.aliases[name]).Some? && !Final(root, store, store.split(store.aliases[name]).value);
      NotFinalMoves(root, store, name);
    }
  }

  /** A registered name never looks like a flag. */
  predicate ProperNames(root: Root) { forall name | name in root.names :: name != "" && !IsFlag(name) }

  /** Every stored expansion that splits starts with a registered command. */
  predicate StartsRegistered(root: Root, store: Store) {
    forall name | name in store.aliases ::
      match store.split(store.aliases[name])
      case None => true
      case Some(words) => words != [] && Builtin(root, words[0])
  }

  /** Corollary: expansions that start with a registered command are final. */
  lemma ExpansionIsIdempotent(root: Root, args: seq<string>, store: Store)
    requires ProperNames(root) && StartsRegistered(root, store)
    ensures Idempotent(root, args, store)
  {
    forall name | name in store.aliases && store.split(store.aliases[name]).Some?
      ensures Final(root, store, store.split(store.aliases[name]).value)
    {
      assert CommandFrom(root, store.split(store.aliases[name]).value, 0) == 0;
    }
    FinalStays(root, args, store);
  }

  /** Corollary: an alias of an alias is expanded further by a second pass. */
  lemma ChainedAliasesExpandTwice()
    ensures exists root, args, store :: ProperNames(root) && !Idempotent(root, args, store)
  {
    var root := Root({"account"}, {});
    var store := Store(map["a" := "b", "b" := "account"], (s: string) => Some([s]));
    assert CommandFrom(root, ["b"], 0) == 0 && ["account"][0] != ["b"][0];
    assert !Final(root, store, ["b"]);
    NotFinalMoves(root, store, "a");
  }

  // ----- Which word, and what becomes of it

  /** Word `i` is the value of a flag before it that takes one. */
  predicate IsValue(root: Root, args: seq<string>, i: nat)
    requires i < |args|
  {
    i > 1 && IsFlag(args[i - 1]) && args[i - 1] in root.valueFlags && !IsValue(root, args, i - 1)
  }

  predicate IsCommandWord(root: Root, args: seq<string>, i: nat)
    requires i < |args|
  {
    i >= 1 && !IsFlag(args[i]) && !IsValue(root, args, i)
  }

  lemma {:induction false} SearchFindsFirst(root: Root, args: seq<string>, i: nat)
    requires 1 <= i <= |args| && (i < |args| ==> !IsValue(root, args, i))
    ensures var k := CommandFrom(root, args, i);
            && (forall j | i <= j < k && j < |args| :: !IsCommandWord(root, args, j))
            && (k < |args| ==> IsCommandWord(root, args, k))
    decreases |args| - i
  {
    if i < |args| && IsFlag(args[i]) {
      if args[i] in root.valueFlags && i + 1 < |args| {
        assert IsValue(root, args, i + 1);
        SearchFindsFirst(root, args, i + 2);
      } else {
        SearchFindsFirst(root, args, i + 1);
      }
    }
  }

  /** The word looked at is the first one behind the program's name that is neither
      a flag nor the value of a flag that takes one. */
  lemma CommandWordExactly(root: Root, args: seq<string>)
    ensures match CommandIndex(root, args)
            case Some(k) =>
              IsCommandWord(root, args, k) && forall j | 0 <= j < k :: !IsCommandWord(root, args, j)
            case None => forall j | 0 <= j < |args| :: !IsCommandWord(root, args, j)
  {
    if |args| >= 2 { SearchFindsFirst(root, args, 1); }
  }

  /** It is replaced, in place, by the words of its expansion exactly when it is an
      alias that splits, and neither "help" nor a registered name. */
  lemma ExpansionExactly(root: Root, args: seq<string>, store: Store, k: nat)
    requires k < |args| && IsCommandWord(root, args, k) && forall j | 0 <= j < k :: !IsCommandWord(root, args, j)
    ensures var name := args[k];
            Expand(root, args, store) ==
            if name == "help" || name in root.names || name !in store.aliases then Expanded(args)
            else match store.split(store.aliases[name])
              case None => BadExpansion(args)
              case Some(words) => Expanded(args[..k] + (words + args[k + 1..]))
  {
    CommandWordExactly(root, args);
  }

  /** The words before and after the command word survive unchanged, and a line
      whose command word is registered is never touched. */
  lemma OnlyCommandWordChanges(root: Root, args: seq<string>, store: Store)
    ensures var now := Expand(root, args, store).args;
            now == args ||
            (CommandIndex(root, args).Some? && !Builtin(root, args[CommandIndex(root, args).value]) &&
              var k := CommandIndex(root, args).value;
              |now| >= |args| - 1 && now[..k] == args[..k] && now[|now| - (|args| - k - 1)..] == args[k + 1..])
  {
    match Applicable(root, args, store) {
      case Some(Some(words)) =>
        var k := CommandIndex(root, args).value;
        var now := Splice(args, k, words);
        assert now[..k] == args[..k];
      case _ =>
    }
  }
}
