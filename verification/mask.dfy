/** Redaction of secrets in JSON bodies before they reach the debug log. */
module Mask {
  import opened Ascii
  import opened Wrappers

  datatype Json =
    | Null
    | Bool(b: bool)
    | Number(digits: string)
    | Text(s: string)
    | Array(items: seq<Json>)
    | Object(fields: map<string, Json>)

  const REDACTED := "***REDACTED***"

  const SENSITIVE_KEYS: set<string> := {
    "creditcardnumber", "cardnumber", "cardsecuritycode", "securitycode", "cvv", "cvc",
    "bankaccountnumber", "password", "secret", "clientsecret", "token", "accesstoken",
    "refreshtoken", "apikey"
  }

  // ----- Keys

  predicate IsSeparator(c: char) { c == '_' || c == '-' }

  /** strings.ReplaceAll(s, c, "") for a single character. */
  function Without(s: string, c: char): string {
    if s == "" then "" else (if s[0] == c then "" else [s[0]]) + Without(s[1..], c)
  }

  function NormalizeKey(k: string): string { Without(Without(Lower(k), '_'), '-') }

  predicate IsSensitive(k: string) { NormalizeKey(k) in SENSITIVE_KEYS }

  /** Two spellings of one name: they differ only in letter case and in
      underscores and hyphens, anywhere. */
  predicate SameName(a: string, b: string)
    decreases |a| + |b|
  {
    if a != "" && IsSeparator(a[0]) then SameName(a[1..], b)
    else if b != "" && IsSeparator(b[0]) then SameName(a, b[1..])
    else if a == "" || b == "" then a == b
    else ToLower(a[0]) == ToLower(b[0]) && SameName(a[1..], b[1..])
  }

  lemma NormalizeSplits(s: string)
    requires s != ""
    ensures NormalizeKey(s) == (if IsSeparator(s[0]) then "" else [ToLower(s[0])]) + NormalizeKey(s[1..])
  {
    var c, rest := ToLower(s[0]), Lower(s[1..]);
    assert Lower(s)[1..] == rest && Lower(s)[0] == c;
    assert IsSeparator(s[0]) <==> IsSeparator(c);
    if c == '_' {
      assert Without(Lower(s), '_') == Without(rest, '_');
    } else {
      var w := [c] + Without(rest, '_');
      assert Without(Lower(s), '_') == w && w[1..] == Without(rest, '_');
    }
  }

  /** Normalization identifies exactly the spellings of one name, so whether a
      key is sensitive does not depend on its spelling. */
  lemma {:induction false} NormalizeIdentifiesSpellings(a: string, b: string)
    ensures NormalizeKey(a) == NormalizeKey(b) <==> SameName(a, b)
    ensures SameName(a, b) ==> (IsSensitive(a) <==> IsSensitive(b))
    decreases |a| + |b|
  {
    if a != "" { NormalizeSplits(a); }
    if b != "" { NormalizeSplits(b); }
    if a != "" && IsSeparator(a[0]) {
      NormalizeIdentifiesSpellings(a[1..], b);
    } else if b != "" && IsSeparator(b[0]) {
      NormalizeIdentifiesSpellings(a, b[1..]);
    } else if a != "" && b != "" {
      NormalizeIdentifiesSpellings(a[1..], b[1..]);
      var x, y := [ToLower(a[0])] + NormalizeKey(a[1..]), [ToLower(b[0])] + NormalizeKey(b[1..]);
      assert x[1..] == NormalizeKey(a[1..]) && y[1..] == NormalizeKey(b[1..]);
    }
  }

  // ----- The rewrite

  function MaskedEntry(k: string, v: Json): Json
    decreases v, 1
  {
    if IsSensitive(k) then Text(REDACTED) else Masked(v)
  }

  /** The reference: every value under a sensitive key replaced, at any depth. */
  function Masked(v: Json): Json
    decreases v, 0
  {
    match v
    case Object(fields) =>
      Object(map k | k in fields :: MaskedEntry(k, fields[k]))
    case Array(items) => Array(seq(|items|, i requires 0 <= i < |items| => Masked(items[i])))
    case _ => v
  }

  /** A decoded JSON value in memory: objects and arrays are shared references
      that maskValue overwrites. */
  datatype Ref = Scalar(value: Json) | Obj(o: Fields) | Arr(a: Items)

  /** `owns` says which objects each entry is made of. */
  class Fields {
    var entries: map<string, Ref>
    ghost var owns: map<string, set<object>>

    constructor ()
      ensures entries == map[] && owns == map[]
    {
      entries, owns := map[], map[];
    }
  }

  class Items {
    var elems: seq<Ref>
    ghost var owns: seq<set<object>>

    constructor ()
      ensures elems == [] && owns == []
    {
      elems, owns := [], [];
    }
  }

  /** `o` has entries for `keys`, no object being part of two of them. */
  ghost predicate Apart(o: Fields, keys: set<string>, parts: set<object>)
    reads o
  {
    && (forall k :: (k in o.entries <==> k in keys) && (k in o.owns <==> k in keys))
    && (forall k | k in keys :: o.owns[k] <= parts - {o})
    && (forall j, k, x | j in keys && k in keys && x in o.owns[j] && x in o.owns[k] :: j == k)
  }

  /** The entries other than `k` show `fields`. */
  ghost predicate ShowsBut(o: Fields, k: string, fields: map<string, Json>, parts: set<object>)
    reads parts + {o}
  {
    o in parts && k in fields && Apart(o, fields.Keys, parts) &&
    forall j | j in fields && j != k :: Shows(o.entries[j], fields[j], o.owns[j])
  }

  /** In the current heap `v` is the tree `t`, made of objects in `parts`, none of
      which is used twice. */
  ghost predicate Shows(v: Ref, t: Json, parts: set<object>)
    reads parts
    decreases t
  {
    match (v, t)
    case (Obj(o), Object(fields)) =>
      && o in parts && Apart(o, fields.Keys, parts)
      && forall k | k in fields :: Shows(o.entries[k], fields[k], o.owns[k])
    case (Arr(a), Array(items)) =>
      && a in parts && |a.elems| == |a.owns| == |items|
      && (forall i | 0 <= i < |items| :: a.owns[i] <= parts - {a} && Shows(a.elems[i], items[i], a.owns[i]))
      && (forall i, j | 0 <= i < j < |items| :: a.owns[i] !! a.owns[j])
    case (Scalar(x), _) => x == t && !t.Object? && !t.Array?
    case _ => false
  }

  /** A value shows one tree only. */
  lemma {:induction false} ShownTreeIsUnique(v: Ref, t: Json, u: Json, parts: set<object>, others: set<object>)
    requires Shows(v, t, parts) && Shows(v, u, others)
    ensures t == u
    decreases t
  {
    match (v, t, u) {
      case (Obj(o), Object(f), Object(g)) =>
        forall k | k in f ensures k in g && f[k] == g[k] {
          ShownTreeIsUnique(o.entries[k], f[k], g[k], o.owns[k], o.owns[k]);
        }
        assert f == g;
      case (Arr(a), Array(xs), Array(ys)) =>
        forall i | 0 <= i < |xs| ensures xs[i] == ys[i] {
          ShownTreeIsUnique(a.elems[i], xs[i], ys[i], a.owns[i], a.owns[i]);
        }
        assert xs == ys;
      case _ =>
    }
  }

  /** What decoding leaves in memory for `t`: new objects, none shared. */
  method Load(t: Json) returns (v: Ref, ghost parts: set<object>)
    ensures Shows(v, t, parts) && fresh(parts)
    decreases t, 1
  {
    match t {
      case Object(_) =>
        v, parts := LoadObject(t);
      case Array(_) =>
        v, parts := LoadArray(t);
      case _ =>
        v, parts := Scalar(t), {};
    }
  }

  method LoadObject(t: Json) returns (v: Ref, ghost parts: set<object>)
    requires t.Object?
    ensures Shows(v, t, parts) && fresh(parts)
    decreases t, 0
  {
    var o := new Fields();
    v, parts := Obj(o), {o};
    var todo := t.fields.Keys;
    while todo != {}
      invariant todo <= t.fields.Keys && fresh(parts) && o in parts
      invariant Apart(o, t.fields.Keys - todo, parts)
      invariant forall k | k in t.fields && k !in todo :: Shows(o.entries[k], t.fields[k], o.owns[k])
      decreases |todo|
    {
      var k :| k in todo;
      var inner;
      ghost var own;
      inner, own := Load(t.fields[k]);
      assert own !! parts;
      o.entries, o.owns := o.entries[k := inner], o.owns[k := own];
      parts := parts + own;
      todo := todo - {k};
    }
  }

  method LoadArray(t: Json) returns (v: Ref, ghost parts: set<object>)
    requires t.Array?
    ensures Shows(v, t, parts) && fresh(parts)
    decreases t, 0
  {
    var a := new Items();
    v, parts := Arr(a), {a};
    for i := 0 to |t.items|
      invariant |a.elems| == |a.owns| == i && fresh(parts) && a in parts
      invariant forall j | 0 <= j < i :: a.owns[j] <= parts - {a} && Shows(a.elems[j], t.items[j], a.owns[j])
      invariant forall j, k | 0 <= j < k < i :: a.owns[j] !! a.owns[k]
    {
      var inner;
      ghost var own;
      inner, own := Load(t.items[i]);
      assert own !! parts;
      a.elems, a.owns := a.elems + [inner], a.owns + [own];
      parts := parts + own;
    }
  }

  /** maskValue: overwrites, in place, the entries of each object, in whatever
      order the map yields its keys, and the elements of each array. An object or
      array stays the same object; `left` is what the tree is made of now. */
  method MaskValue(v: Ref, ghost t: Json, ghost parts: set<object>) returns (r: Ref, ghost left: set<object>)
    requires Shows(v, t, parts)
    modifies parts
    ensures left <= parts && Shows(r, Masked(t), left)
    ensures !v.Scalar? ==> r == v
    decreases t, 1
  {
    match v {
      case Obj(o) =>
        MaskFields(o, t, parts);
        r, left := v, parts;
      case Arr(a) =>
        MaskItems(a, t, parts);
        r, left := v, parts;
      case Scalar(_) =>
        r, left := v, {};
    }
  }

  /** An object whose entries in `todo` are still to be masked. */
  ghost function Partly(fields: map<string, Json>, todo: set<string>): (now: map<string, Json>) {
    map k | k in fields :: if k in todo then fields[k] else MaskedEntry(k, fields[k])
  }

  lemma PartlyMasked(fields: map<string, Json>)
    ensures Partly(fields, fields.Keys) == fields
    ensures Masked(Object(fields)) == Object(Partly(fields, {}))
  {
  }

  lemma OneMore(fields: map<string, Json>, todo: set<string>, k: string)
    requires k in todo && k in fields
    ensures Partly(fields, todo - {k}) == Partly(fields, todo)[k := MaskedEntry(k, fields[k])]
  {
  }

  method MaskFields(o: Fields, ghost t: Json, ghost parts: set<object>)
    requires Shows(Obj(o), t, parts)
    modifies parts
    ensures Shows(Obj(o), Masked(t), parts)
    decreases t, 0
  {
    ghost var fields := t.fields;
    PartlyMasked(fields);
    var todo := o.entries.Keys;
    assert todo == fields.Keys;
    while todo != {}
      invariant forall k | k in todo :: k in fields
      invariant Shows(Obj(o), Object(Partly(fields, todo)), parts)
      decreases |todo|
    {
      var k :| k in todo;
      MaskEntry(o, k, Partly(fields, todo), parts);
      OneMore(fields, todo, k);
      todo := todo - {k};
    }
  }

  method MaskEntry(o: Fields, k: string, ghost fields: map<string, Json>, ghost parts: set<object>)
    requires Shows(Obj(o), Object(fields), parts) && k in fields
    modifies parts
    ensures Shows(Obj(o), Object(fields[k := MaskedEntry(k, fields[k])]), parts)
    decreases fields[k], 2
  {
    ghost var owned := o.owns[k];
    var inner := Scalar(Text(REDACTED));
    ghost var rest: set<object> := {};
    if !IsSensitive(k) {
      inner, rest := MaskValue(o.entries[k], fields[k], owned);
    }
    assert rest <= owned && Shows(inner, MaskedEntry(k, fields[k]), rest);
    Store(o, k, inner, fields, MaskedEntry(k, fields[k]), rest, parts);
  }

  /** t[k] = inner: the other entries show what they showed. */
  method Store(o: Fields, k: string, inner: Ref, ghost fields: map<string, Json>, ghost now: Json,
               ghost rest: set<object>, ghost parts: set<object>)
    requires ShowsBut(o, k, fields, parts) && Shows(inner, now, rest) && rest <= o.owns[k]
    modifies o
    ensures Shows(Obj(o), Object(fields[k := now]), parts)
  {
    Overwrite(o, k, inner, fields, rest, parts);
    assert fields[k := now].Keys == fields.Keys;
    assert Shows(o.entries[k], now, o.owns[k]);
  }

  method Overwrite(o: Fields, k: string, inner: Ref, ghost fields: map<string, Json>, ghost rest: set<object>,
                   ghost parts: set<object>)
    requires ShowsBut(o, k, fields, parts) && rest <= o.owns[k]
    modifies o
    ensures o.entries == old(o.entries)[k := inner] && o.owns == old(o.owns)[k := rest]
    ensures ShowsBut(o, k, fields, parts)
  {
    assert forall j | j in fields && j != k :: Shows(o.entries[j], fields[j], o.owns[j]);
    o.entries, o.owns := o.entries[k := inner], o.owns[k := rest];
  }

  method MaskItems(a: Items, ghost t: Json, ghost parts: set<object>)
    requires Shows(Arr(a), t, parts)
    modifies parts
    ensures Shows(Arr(a), Masked(t), parts)
    decreases t, 0
  {
    ghost var items := t.items;
    ghost var masked := Masked(t).items;
    for i := 0 to |a.elems|
      invariant |a.elems| == |a.owns| == |items| == |masked|
      invariant forall j | 0 <= j < |items| :: a.owns[j] <= parts - {a}
      invariant forall j, k | 0 <= j < k < |items| :: a.owns[j] !! a.owns[k]
      invariant forall j | 0 <= j < |items| ::
                  Shows(a.elems[j], if j < i then masked[j] else items[j], a.owns[j])
    {
      var inner;
      ghost var rest;
      inner, rest := MaskValue(a.elems[i], items[i], a.owns[i]);
      a.elems, a.owns := a.elems[i := inner], a.owns[i := rest];
    }
  }

  // ----- Noninterference

  /** The trees differ at most in values under sensitive keys. */
  predicate SameButSecrets(a: Json, b: Json) {
    match (a, b)
    case (Object(f), Object(g)) =>
      f.Keys == g.Keys && forall k | k in f :: IsSensitive(k) || SameButSecrets(f[k], g[k])
    case (Array(xs), Array(ys)) =>
      |xs| == |ys| && forall i | 0 <= i < |xs| :: SameButSecrets(xs[i], ys[i])
    case _ => a == b
  }

  /** Masking forgets the secrets and nothing else: two trees mask to the same
      tree exactly when they differ only under sensitive keys. */
  lemma {:induction false} MaskingHidesExactlySecrets(a: Json, b: Json)
    ensures Masked(a) == Masked(b) <==> SameButSecrets(a, b)
  {
    match (a, b) {
      case (Object(f), Object(g)) =>
        var m, n := Masked(a).fields, Masked(b).fields;
        forall k | k in f && k in g
          ensures m[k] == n[k] <==> IsSensitive(k) || SameButSecrets(f[k], g[k])
        {
          assert m[k] == MaskedEntry(k, f[k]) && n[k] == MaskedEntry(k, g[k]);
          if !IsSensitive(k) { MaskingHidesExactlySecrets(f[k], g[k]); }
        }
        assert m.Keys == f.Keys && n.Keys == g.Keys;
        if SameButSecrets(a, b) { assert m == n; }
      case (Array(xs), Array(ys)) =>
        var m, n := Masked(a).items, Masked(b).items;
        forall i | 0 <= i < |xs| && 0 <= i < |ys|
          ensures m[i] == n[i] <==> SameButSecrets(xs[i], ys[i])
        {
          MaskingHidesExactlySecrets(xs[i], ys[i]);
        }
        if SameButSecrets(a, b) { assert m == n; }
        if Masked(a) == Masked(b) { assert |xs| == |m| == |n| == |ys|; }
      case _ =>
    }
  }

  /** Masking twice is masking once. */
  lemma {:induction false} MaskingIsIdempotent(v: Json)
    ensures Masked(Masked(v)) == Masked(v)
  {
    MaskedDiffersInSecrets(v);
    MaskingHidesExactlySecrets(Masked(v), v);
  }

  lemma {:induction false} MaskedDiffersInSecrets(v: Json)
    ensures SameButSecrets(Masked(v), v)
  {
    match v {
      case Object(fields) =>
        forall k | k in fields && !IsSensitive(k) ensures SameButSecrets(Masked(v).fields[k], fields[k]) {
          MaskedDiffersInSecrets(fields[k]);
        }
      case Array(items) =>
        forall i | 0 <= i < |items| ensures SameButSecrets(Masked(v).items[i], items[i]) {
          MaskedDiffersInSecrets(items[i]);
        }
      case _ =>
    }
  }

  // ----- Paths

  datatype Hop = Key(k: string) | Index(i: nat)

  /** The value at a path, if the path exists. */
  function At(v: Json, path: seq<Hop>): Option<Json>
    decreases |path|
  {
    if path == [] then Some(v)
    else match (path[0], v)
      case (Key(k), Object(fields)) => if k in fields then At(fields[k], path[1..]) else None
      case (Index(i), Array(items)) => if i < |items| then At(items[i], path[1..]) else None
      case _ => None
  }

  predicate IsSecretHop(h: Hop) { h.Key? && IsSensitive(h.k) }

  predicate NoSecretHop(path: seq<Hop>) { forall i | 0 <= i < |path| :: !IsSecretHop(path[i]) }

  /** A path without a sensitive key leads to the masked value of what was there:
      it exists exactly when it did, and scalars are unchanged. */
  lemma {:induction false} OtherPathsStay(v: Json, path: seq<Hop>)
    requires NoSecretHop(path)
    ensures At(v, path).None? <==> At(Masked(v), path).None?
    ensures At(v, path).Some? ==> At(Masked(v), path) == Some(Masked(At(v, path).value))
    ensures At(v, path).Some? && !At(v, path).value.Object? && !At(v, path).value.Array? ==>
              At(Masked(v), path) == At(v, path)
    decreases |path|
  {
    if path != [] {
      assert NoSecretHop(path[1..]) by {
        forall i | 0 <= i < |path[1..]| ensures !IsSecretHop(path[1..][i]) { assert !IsSecretHop(path[i + 1]); }
      }
      match (path[0], v) {
        case (Key(k), Object(fields)) => if k in fields { OtherPathsStay(fields[k], path[1..]); }
        case (Index(i), Array(items)) => if i < |items| { OtherPathsStay(items[i], path[1..]); }
        case _ =>
      }
    }
  }

  /** Nothing but the redaction mark can be reached through a sensitive key. */
  lemma {:induction false} SecretsAreRedacted(v: Json, path: seq<Hop>)
    requires At(Masked(v), path).Some? && !NoSecretHop(path)
    ensures IsSecretHop(path[|path| - 1]) && At(Masked(v), path) == Some(Text(REDACTED))
    decreases |path|
  {
    match (path[0], v) {
      case (Key(k), Object(fields)) =>
        if IsSensitive(k) {
          assert |path| == 1;
        } else {
          RestHasSecret(path);
          SecretsAreRedacted(fields[k], path[1..]);
        }
      case (Index(i), Array(items)) =>
        RestHasSecret(path);
        SecretsAreRedacted(items[i], path[1..]);
      case _ =>
    }
  }

  lemma RestHasSecret(path: seq<Hop>)
    requires !NoSecretHop(path) && !IsSecretHop(path[0])
    ensures !NoSecretHop(path[1..])
  {
    var i :| 0 <= i < |path| && IsSecretHop(path[i]);
    assert path[1..][i - 1] == path[i];
  }

  // ----- The log

  type Bytes = string

  const MAX_BODY_LOG := 4096

  /** maskSecrets, for any JSON decoder and encoder. A body that does not decode,
      or whose masked tree does not encode, stays as it is. */
  function MaskSecrets(body: Bytes, parse: Bytes -> Option<Json>, render: Json -> Option<Bytes>): Bytes {
    match parse(body)
    case None => body
    case Some(v) =>
      match render(Masked(v))
      case None => body
      case Some(masked) => masked
  }

  /** What vlogBody writes about a body at verbosity level 2. */
  function LogBody(dir: string, contentType: string, body: Bytes,
                   parse: Bytes -> Option<Json>, render: Json -> Option<Bytes>): string {
    if body == "" then ""
    else if "multipart/" <= Lower(contentType) then dir + " [multipart body omitted]\n\n"
    else
      var b := MaskSecrets(body, parse, render);
      if |b| > MAX_BODY_LOG then
        dir + " " + b[..MAX_BODY_LOG] + "\n" + (dir + " [body truncated at 4096 bytes]\n") + "\n"
      else dir + " " + b + "\n" + "\n"
  }

  /** vlogBody at verbosity level 2. */
  class Log {
    var text: string

    method LogBodyTo(verboseBody: bool, dir: string, contentType: string, body: Bytes,
                     parse: Bytes -> Option<Json>, render: Json -> Option<Bytes>)
      modifies this
      ensures text == old(text) + if verboseBody then LogBody(dir, contentType, body, parse, render) else ""
    {
      if !verboseBody || |body| == 0 {
        return;
      }
      if "multipart/" <= Lower(contentType) {
        text := text + (dir + " [multipart body omitted]\n\n");
        return;
      }
      var b := MaskSecrets(body, parse, render);
      var truncated := false;
      if |b| > MAX_BODY_LOG {
        b := b[..MAX_BODY_LOG];
        truncated := true;
      }
      var out := dir + " " + b + "\n";
      if truncated {
        out := out + (dir + " [body truncated at 4096 bytes]\n");
      }
      text := text + (out + "\n");
    }
  }

  predicate IsMultipart(contentType: string) {
    |contentType| >= 10 && forall i | 0 <= i < 10 :: ToLower(contentType[i]) == "multipart/"[i]
  }

  /** Nothing of a multipart body is logged, and of any other body at most its first
      4096 masked bytes, all of them if it has no more. */
  lemma LogIsBounded(dir: string, contentType: string, body: Bytes, other: Bytes,
                     parse: Bytes -> Option<Json>, render: Json -> Option<Bytes>)
    requires body != "" && other != ""
    ensures IsMultipart(contentType) ==>
              LogBody(dir, contentType, body, parse, render) == LogBody(dir, contentType, other, parse, render)
    ensures var b := MaskSecrets(body, parse, render);
            var shown := if |b| > 4096 then b[..4096] else b;
            !IsMultipart(contentType) ==>
              && dir + " " + shown + "\n" <= LogBody(dir, contentType, body, parse, render)
              && |LogBody(dir, contentType, body, parse, render)| <= 2 * |dir| + |shown| + 40
  {
    assert "multipart/" <= Lower(contentType) <==> IsMultipart(contentType);
  }

  /** The log of a JSON body does not depend on its secrets: bodies that decode to
      trees differing only under sensitive keys are logged identically, cut or
      not. */
  lemma LogHidesSecrets(dir: string, contentType: string, a: Bytes, b: Bytes,
                        parse: Bytes -> Option<Json>, render: Json -> Option<Bytes>)
    requires a != "" && b != "" && parse(a).Some? && parse(b).Some?
    requires render(Masked(parse(a).value)).Some?
    requires SameButSecrets(parse(a).value, parse(b).value)
    ensures LogBody(dir, contentType, a, parse, render) == LogBody(dir, contentType, b, parse, render)
  {
    MaskingHidesExactlySecrets(parse(a).value, parse(b).value);
  }
}
