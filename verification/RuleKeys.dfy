/**
 Per-tenant rate-limit rules: the Redis key of a rule, reading a rule back from its key, and resolving the
 rule that applies to a request.
 */
module RuleKeys {
  import opened Options
  import opened Splitting

  datatype Limit = Limit(rps: nat, burst: nat, cost: nat)

  datatype Rule = Rule(tenant: string, model: Option<string>, path: Option<string>, policy: Option<string>,
                       limit: Limit, ttlSecs: Option<nat>)

  datatype Result<+T> = Ok(value: T) | Err

  // ---------------------------------------------------------------- text

  /** The characters str::trim removes (Unicode White_Space). */
  predicate IsWhitespace(c: char) {
    var n := c as int;
    9 <= n <= 13 || n == 32 || n == 0x85 || n == 0xA0 || n == 0x1680 || 0x2000 <= n <= 0x200A
    || n == 0x2028 || n == 0x2029 || n == 0x202F || n == 0x205F || n == 0x3000
  }

  function Trim(s: string): string
    decreases |s|
  {
    if s == "" then ""
    else if IsWhitespace(s[0]) then Trim(s[1..])
    else if IsWhitespace(s[|s| - 1]) then Trim(s[..|s| - 1])
    else s
  }

  predicate KeyChar(c: char) {
    'a' <= c <= 'z' || 'A' <= c <= 'Z' || '0' <= c <= '9' || c == ':' || c == '_' || c == '-' || c == '.'
  }

  function Clean(c: char): char {
    if KeyChar(c) then c else '_'
  }

  const LOWER := ["abcdefg", "hijklmn", "opqrstu", "vwxyz"]
  const UPPER := ["ABCDEFG", "HIJKLMN", "OPQRSTU", "VWXYZ"]

  predicate InRows(c: char, rows: seq<string>)
    requires |rows| == 4
  {
    c in rows[0] || c in rows[1] || c in rows[2] || c in rows[3]
  }

  lemma InLower(c: char)
    ensures InRows(c, LOWER) <==> 'a' <= c <= 'z'
  {
  }

  lemma InUpper(c: char)
    ensures InRows(c, UPPER) <==> 'A' <= c <= 'Z'
  {
  }

  lemma InDigits(c: char)
    ensures c in "0123456789" <==> '0' <= c <= '9'
  {
  }

  /** The characters a key keeps, one by one; every other becomes an underscore. */
  lemma CleanKeeps(c: char)
    ensures Clean(c) ==
      if InRows(c, LOWER) || InRows(c, UPPER) || c in "0123456789" || c in ":_-." then c else '_'
  {
    InLower(c);
    InUpper(c);
    InDigits(c);
    hide InRows;
  }

  ghost predicate Blank(s: string) {
    forall i :: 0 <= i < |s| ==> IsWhitespace(s[i])
  }

  lemma MoreInFront(s: string, a: string, t: string, b: string)
    requires s != "" && s[1..] == a + t + b
    ensures s == [s[0]] + a + t + b
  {
    assert s == [s[0]] + s[1..];
  }

  lemma MoreBehind(s: string, a: string, t: string, b: string)
    requires s != "" && s[..|s| - 1] == a + t + b
    ensures s == a + t + (b + [s[|s| - 1]])
  {
    assert s == s[..|s| - 1] + [s[|s| - 1]];
  }

  /** str::trim takes whitespace off both ends, and all of it. */
  lemma {:induction false} TrimIsExact(s: string) returns (a: string, b: string)
    ensures s == a + Trim(s) + b && Blank(a) && Blank(b)
    ensures Trim(s) != "" ==> !IsWhitespace(Trim(s)[0]) && !IsWhitespace(Trim(s)[|Trim(s)| - 1])
    decreases |s|
  {
    hide IsWhitespace;
    var n := |s| - 1;
    if s == "" {
      a, b := "", "";
    } else if IsWhitespace(s[0]) {
      var c;
      assert Trim(s) == Trim(s[1..]);
      c, b := TrimIsExact(s[1..]);
      a := [s[0]] + c;
      MoreInFront(s, c, Trim(s), b);
    } else if IsWhitespace(s[n]) {
      var c;
      assert Trim(s) == Trim(s[..n]);
      a, c := TrimIsExact(s[..n]);
      b := c + [s[n]];
      MoreBehind(s, a, Trim(s), c);
    } else {
      a, b := "", "";
      assert s == "" + s + "";
    }
    hide Trim;
  }

  /** sanitize_key. */
  function Sanitize(s: string): (r: string)
    ensures |r| == |s| && (forall i :: 0 <= i < |s| ==> r[i] == Clean(s[i]))
  {
    if s == "" then "" else [Clean(s[0])] + Sanitize(s[1..])
  }

  /** non_empty_opt. */
  function NonEmptyOpt(v: Option<string>): Option<string> {
    if v.None? || Trim(v.value) == "" then None else Some(Trim(v.value))
  }

  lemma SanitizedIsFixed(s: string)
    ensures Sanitize(Sanitize(s)) == Sanitize(s)
  {
  }

  lemma SanitizedIsTrimmed(s: string)
    ensures Trim(Sanitize(s)) == Sanitize(s)
  {
    var r := Sanitize(s);
    if r != "" { assert r[0] == Clean(s[0]) && r[|r| - 1] == Clean(s[|s| - 1]); }
  }

  lemma SanitizeKeepsColons(s: string)
    ensures ':' in Sanitize(s) <==> ':' in s
  {
    var r := Sanitize(s);
    if ':' in s { var i :| 0 <= i < |s| && s[i] == ':'; assert r[i] == ':'; }
    if ':' in r { var i :| 0 <= i < |r| && r[i] == ':'; assert s[i] == ':'; }
  }

  // ---------------------------------------------------------------- keys

  /** What a key names, already trimmed and sanitized. */
  datatype Dims = Dims(tenant: string, model: Option<string>, path: Option<string>, policy: Option<string>)

  function Part(name: string, v: Option<string>): string {
    if v.None? then "" else ":" + name + ":" + v.value
  }

  /** The part of a key after the configured prefix. */
  function Suffix(d: Dims): string {
    d.tenant + Part("model", d.model) + Part("path", d.path) + Part("policy", d.policy)
  }

  function KeyOf(prefix: string, d: Dims): string {
    prefix + Suffix(d)
  }

  function SanitizeOpt(v: Option<string>): Option<string> {
    if v.None? then None else Some(Sanitize(v.value))
  }

  function DimsOf(r: Rule): Dims {
    Dims(Sanitize(Trim(r.tenant)), SanitizeOpt(NonEmptyOpt(r.model)), SanitizeOpt(NonEmptyOpt(r.path)),
         SanitizeOpt(NonEmptyOpt(r.policy)))
  }

  lemma PushPart(key: string, tag: string, name: string, value: string)
    requires tag == ":" + name + ":"
    ensures key + tag + value == key + Part(name, Some(value))
  {
  }

  lemma PushNothing(key: string, name: string)
    ensures key == key + Part(name, None)
  {
  }

  lemma Regroup(prefix: string, t: string, a: string, b: string, c: string)
    ensures prefix + t + a + b + c == prefix + (t + a + b + c)
  {
  }

  /** tenant_rate_limit_rule_key. */
  method RuleKey(prefix: string, rule: Rule) returns (key: string)
    ensures key == KeyOf(prefix, DimsOf(rule))
  {
    hide Sanitize, Trim, Part;
    ghost var d := DimsOf(rule);
    Regroup(prefix, d.tenant, Part("model", d.model), Part("path", d.path), Part("policy", d.policy));
    key := prefix + Sanitize(Trim(rule.tenant));
    key := PushDimension(key, ":model:", "model", rule.model);
    key := PushDimension(key, ":path:", "path", rule.path);
    key := PushDimension(key, ":policy:", "policy", rule.policy);
  }

  /** One `if let Some(v) = non_empty_opt(..)` block of the key builder. */
  method PushDimension(key0: string, tag: string, ghost name: string, v: Option<string>) returns (key: string)
    requires tag == ":" + name + ":"
    ensures key == key0 + Part(name, SanitizeOpt(NonEmptyOpt(v)))
  {
    hide Sanitize, Trim;
    key := key0;
    var value := NonEmptyOpt(v);
    if value.Some? {
      PushPart(key, tag, name, Sanitize(value.value));
      key := key + tag;
      key := key + Sanitize(value.value);
    } else {
      PushNothing(key, name);
    }
  }

  // ---------------------------------------------------------------- reading a key

  /** What the name/value pairs from position i on say; a later pair overrides an earlier one of the same name. */
  function ReadPairs(parts: seq<string>, i: nat, d: Dims): Dims
    decreases |parts| - i
  {
    if i + 1 >= |parts| then d
    else ReadPairs(parts, i + 2, Assign(d, parts[i], parts[i + 1]))
  }

  function Assign(d: Dims, name: string, value: string): Dims {
    if name == "model" then d.(model := Some(value))
    else if name == "path" then d.(path := Some(value))
    else if name == "policy" then d.(policy := Some(value))
    else d
  }

  function ReadKey(prefix: string, key: string): Option<Dims> {
    if !(prefix <= key) then None
    else
      var parts := Split(key[|prefix|..], ':');
      if parts[0] == "" then None else Some(ReadPairs(parts, 1, Dims(parts[0], None, None, None)))
  }

  /** A limit with a cost of at least 1. */
  function AtLeastOne(limit: Limit): Limit {
    if limit.cost == 0 then limit.(cost := 1) else limit
  }

  /** tenant_rate_limit_rule_from_key. */
  method RuleFromKey(prefix: string, key: string, limit: Limit, ttlSecs: Option<nat>) returns (r: Option<Rule>)
    ensures r.Some? <==> ReadKey(prefix, key).Some?
    ensures r.Some? ==> var d := ReadKey(prefix, key).value;
      && r.value == Rule(d.tenant, d.model, d.path, d.policy, r.value.limit, ttlSecs)
      && r.value.limit == Limit(limit.rps, limit.burst, if limit.cost == 0 then 1 else limit.cost)
  {
    if !(prefix <= key) {
      return None;
    }
    var parts := Split(key[|prefix|..], ':');
    var tenant := parts[0];
    if tenant == "" {
      return None;
    }
    var model: Option<string> := None;
    var path: Option<string> := None;
    var policy: Option<string> := None;
    var i := 1;
    while i + 1 < |parts|
      invariant i >= 1
      invariant ReadPairs(parts, i, Dims(tenant, model, path, policy))
             == ReadPairs(parts, 1, Dims(tenant, None, None, None))
      decreases |parts| - i
    {
      var name, value := parts[i], parts[i + 1];
      if name == "model" {
        model := Some(value);
      } else if name == "path" {
        path := Some(value);
      } else if name == "policy" {
        policy := Some(value);
      }
      i := i + 2;
    }
    return Some(Rule(tenant, model, path, policy, AtLeastOne(limit), ttlSecs));
  }

  // ---------------------------------------------------------------- keys and rules

  predicate Plain(v: Option<string>) {
    v.Some? ==> ':' !in v.value
  }

  /** A tenant, and no colon anywhere. */
  predicate ColonFree(d: Dims) {
    d.tenant != "" && ':' !in d.tenant && Plain(d.model) && Plain(d.path) && Plain(d.policy)
  }

  function Pieces(name: string, v: Option<string>): seq<string> {
    if v.None? then [] else [name, v.value]
  }

  lemma PartShape(front: string, name: string, value: string)
    ensures front + Part(name, Some(value)) == front + ":" + (name + ":" + value)
  {
  }

  lemma SplitPart(front: string, name: string, v: Option<string>)
    requires ':' !in name && Plain(v)
    ensures Split(front + Part(name, v), ':') == Split(front, ':') + Pieces(name, v)
  {
    if v.None? {
      PushNothing(front, name);
    } else {
      PartShape(front, name, v.value);
      hide Split, Part;
      SplitAtSeparator(front, name + ":" + v.value, ':');
      SplitAtSeparator(name, v.value, ':');
      SplitOfPlain(name, ':');
      SplitOfPlain(v.value, ':');
    }
  }

  lemma SplitSuffix(d: Dims)
    requires ColonFree(d)
    ensures Split(Suffix(d), ':')
         == [d.tenant] + Pieces("model", d.model) + Pieces("path", d.path) + Pieces("policy", d.policy)
  {
    hide Split, Part, Pieces;
    SplitOfPlain(d.tenant, ':');
    SplitPart(d.tenant, "model", d.model);
    SplitPart(d.tenant + Part("model", d.model), "path", d.path);
    SplitPart(d.tenant + Part("model", d.model) + Part("path", d.path), "policy", d.policy);
  }

  lemma {:induction false} ReadPairsOf(front: seq<string>, name: string, v: Option<string>, rest: seq<string>, d: Dims)
    requires front != []
    ensures ReadPairs(front + Pieces(name, v) + rest, |front|, d)
         == ReadPairs(front + Pieces(name, v) + rest, |front + Pieces(name, v)|,
                      if v.None? then d else Assign(d, name, v.value))
  {
    if v.Some? {
      var all := front + Pieces(name, v) + rest;
      assert all[|front|] == name && all[|front| + 1] == v.value;
    }
  }

  lemma ReadSuffix(d: Dims)
    requires ColonFree(d)
    ensures ReadPairs(Split(Suffix(d), ':'), 1, Dims(d.tenant, None, None, None)) == d
  {
    SplitSuffix(d);
    var t, m, p, q := [d.tenant], Pieces("model", d.model), Pieces("path", d.path), Pieces("policy", d.policy);
    var all := t + m + p + q;
    hide Split, Suffix, Pieces;
    var d0 := Dims(d.tenant, None, None, None);
    var d1 := d0.(model := d.model);
    var d2 := d1.(path := d.path);
    assert t + m + (p + q) == all && (t + m) + p + q == all && (t + m + p) + q + [] == all;
    ReadPairsOf(t, "model", d.model, p + q, d0);
    ReadPairsOf(t + m, "path", d.path, q, d1);
    ReadPairsOf(t + m + p, "policy", d.policy, [], d2);
    assert ReadPairs(all, |all|, d) == d;
  }

  /** The pieces a key is read from contain no colon. */
  lemma {:induction false} ReadPairsPlain(parts: seq<string>, i: nat, d: Dims)
    requires (forall k :: 0 <= k < |parts| ==> ':' !in parts[k]) && Plain(d.model) && Plain(d.path) && Plain(d.policy)
    ensures var e := ReadPairs(parts, i, d); e.tenant == d.tenant && Plain(e.model) && Plain(e.path) && Plain(e.policy)
    decreases |parts| - i
  {
    if i + 1 < |parts| { ReadPairsPlain(parts, i + 2, Assign(d, parts[i], parts[i + 1])); }
  }

  /** Reading the key of some dimensions gives them back exactly when none contains a colon and there is a tenant. */
  lemma KeyReadsBackIff(prefix: string, d: Dims)
    ensures ReadKey(prefix, KeyOf(prefix, d)) == Some(d) <==> ColonFree(d)
  {
    assert KeyOf(prefix, d)[|prefix|..] == Suffix(d);
    hide Suffix, Split, ReadPairs;
    var parts := Split(Suffix(d), ':');
    if ColonFree(d) {
      SplitSuffix(d);
      ReadSuffix(d);
    }
    if parts[0] != "" {
      PiecesArePlain(Suffix(d), ':');
      ReadPairsPlain(parts, 1, Dims(parts[0], None, None, None));
    }
  }

  /** Keys of different colon-free dimensions differ. */
  lemma KeysAreDistinct(prefix: string, d: Dims, e: Dims)
    requires ColonFree(d) && ColonFree(e) && KeyOf(prefix, d) == KeyOf(prefix, e)
    ensures d == e
  {
    KeyReadsBackIff(prefix, d);
    KeyReadsBackIff(prefix, e);
  }

  // ---------------------------------------------------------------- rules written by an administrator

  predicate ValidPolicy(policy: string) {
    policy == "abandon" || policy == "queue" || policy == "wait"
  }

  /** validate_tenant_rule_dimensions. */
  predicate ValidDimensions(r: Rule) {
    && Trim(r.tenant) != "" && ':' !in Trim(r.tenant)
    && Plain(NonEmptyOpt(r.model)) && Plain(NonEmptyOpt(r.path))
    && (NonEmptyOpt(r.policy).Some? ==> ValidPolicy(NonEmptyOpt(r.policy).value))
  }

  lemma SanitizeOptPlain(v: Option<string>)
    requires Plain(v)
    ensures Plain(SanitizeOpt(v))
  {
    if v.Some? { SanitizeKeepsColons(v.value); }
  }

  lemma ValidRuleIsColonFree(r: Rule)
    requires ValidDimensions(r)
    ensures ColonFree(DimsOf(r))
  {
    hide Trim, Sanitize;
    SanitizeKeepsColons(Trim(r.tenant));
    SanitizeOptPlain(NonEmptyOpt(r.model));
    SanitizeOptPlain(NonEmptyOpt(r.path));
    SanitizeOptPlain(NonEmptyOpt(r.policy));
  }

  lemma CleanOptIsFixed(v: Option<string>)
    ensures var w := SanitizeOpt(NonEmptyOpt(v)); SanitizeOpt(NonEmptyOpt(w)) == w
  {
    var u := NonEmptyOpt(v);
    if u.Some? {
      SanitizedIsTrimmed(u.value);
      SanitizedIsFixed(u.value);
      hide Trim, Sanitize;
    }
  }

  /** A rule with these dimensions. */
  function RuleWith(d: Dims, limit: Limit, ttlSecs: Option<nat>): Rule {
    Rule(d.tenant, d.model, d.path, d.policy, limit, ttlSecs)
  }

  /** The key of a valid rule is read back as its dimensions, and the rule read back has the same key. */
  lemma RuleKeyRoundTrip(prefix: string, r: Rule, limit: Limit, ttlSecs: Option<nat>)
    requires ValidDimensions(r)
    ensures var key := KeyOf(prefix, DimsOf(r));
      && ReadKey(prefix, key) == Some(DimsOf(r))
      && KeyOf(prefix, DimsOf(RuleWith(ReadKey(prefix, key).value, limit, ttlSecs))) == key
  {
    ValidRuleIsColonFree(r);
    KeyReadsBackIff(prefix, DimsOf(r));
    SanitizedIsTrimmed(Trim(r.tenant));
    SanitizedIsFixed(Trim(r.tenant));
    CleanOptIsFixed(r.model);
    CleanOptIsFixed(r.path);
    CleanOptIsFixed(r.policy);
    hide Trim, Sanitize, ReadKey, KeyOf, NonEmptyOpt, SanitizeOpt;
    assert DimsOf(RuleWith(DimsOf(r), limit, ttlSecs)) == DimsOf(r);
  }

  // ---------------------------------------------------------------- candidates of a request

  datatype Request = Request(tenant: string, model: string, path: string, policy: string)

  /** Which dimensions of a request a rule may name. */
  datatype Selection = Selection(model: bool, path: bool, policy: bool)

  /** The order in which the candidates are tried. */
  function SelectionAt(i: nat): Selection
    requires i < 8
  {
    match i
    case 0 => Selection(true, true, true)
    case 1 => Selection(true, true, false)
    case 2 => Selection(true, false, true)
    case 3 => Selection(false, true, true)
    case 4 => Selection(true, false, false)
    case 5 => Selection(false, true, false)
    case 6 => Selection(false, false, true)
    case _ => Selection(false, false, false)
  }

  function Specificity(s: Selection): nat {
    (if s.model then 1 else 0) + (if s.path then 1 else 0) + (if s.policy then 1 else 0)
  }

  function Pick(b: bool, v: string): Option<string> {
    if b then Some(v) else None
  }

  /** The rule an administrator would write for these dimensions of the request. */
  function RuleFor(q: Request, s: Selection): Rule {
    Rule(q.tenant, Pick(s.model, q.model), Pick(s.path, q.path), Pick(s.policy, q.policy), Limit(0, 0, 0), None)
  }

  /** tenant_rate_limit_candidate_keys. */
  function Candidates(prefix: string, q: Request): (keys: seq<string>)
    ensures |keys| == 8
  {
    var base := prefix + Sanitize(q.tenant);
    var model := Sanitize(q.model);
    var path := Sanitize(q.path);
    var policy := Sanitize(q.policy);
    [base + ":model:" + model + ":path:" + path + ":policy:" + policy,
     base + ":model:" + model + ":path:" + path,
     base + ":model:" + model + ":policy:" + policy,
     base + ":path:" + path + ":policy:" + policy,
     base + ":model:" + model,
     base + ":path:" + path,
     base + ":policy:" + policy,
     base]
  }

  /** What candidate i names: the request's own values, sanitized but not trimmed. */
  function Named(q: Request, s: Selection): Dims {
    Dims(Sanitize(q.tenant), Pick(s.model, Sanitize(q.model)), Pick(s.path, Sanitize(q.path)),
         Pick(s.policy, Sanitize(q.policy)))
  }

  /** Nothing would be trimmed off, and there is something. */
  predicate Tidy(v: string) {
    v != "" && Trim(v) == v
  }

  predicate TidySelection(q: Request, s: Selection) {
    && Trim(q.tenant) == q.tenant
    && (s.model ==> Tidy(q.model)) && (s.path ==> Tidy(q.path)) && (s.policy ==> Tidy(q.policy))
  }

  /** base + tag + value, or base alone. */
  lemma Tagged(base: string, tag: string, name: string, b: bool, v: string)
    requires tag == ":" + name + ":"
    ensures (if b then base + tag + v else base) == base + Part(name, Pick(b, v))
  {
    if b { PushPart(base, tag, name, v); } else { PushNothing(base, name); }
  }

  lemma CandidateKey(prefix: string, q: Request, i: nat)
    requires i < 8
    ensures Candidates(prefix, q)[i] == KeyOf(prefix, Named(q, SelectionAt(i)))
  {
    var s := SelectionAt(i);
    var base, m, p, r := prefix + Sanitize(q.tenant), Sanitize(q.model), Sanitize(q.path), Sanitize(q.policy);
    Regroup(prefix, Sanitize(q.tenant), Part("model", Pick(s.model, m)), Part("path", Pick(s.path, p)),
            Part("policy", Pick(s.policy, r)));
    hide Sanitize, Part;
    var b1 := if s.model then base + ":model:" + m else base;
    Tagged(base, ":model:", "model", s.model, m);
    var b2 := if s.path then b1 + ":path:" + p else b1;
    Tagged(b1, ":path:", "path", s.path, p);
    var b3 := if s.policy then b2 + ":policy:" + r else b2;
    Tagged(b2, ":policy:", "policy", s.policy, r);
    assert Candidates(prefix, q)[i] == b3;
  }

  lemma {:induction false} TrimShortens(v: string)
    ensures |Trim(v)| <= |v| && (|Trim(v)| == |v| ==> Trim(v) == v)
    decreases |v|
  {
    if v != "" {
      if IsWhitespace(v[0]) { TrimShortens(v[1..]); }
      else if IsWhitespace(v[|v| - 1]) { TrimShortens(v[..|v| - 1]); }
    }
  }

  /** A rule's dimension equals the request's exactly when the value is tidy. */
  lemma SelectedIff(b: bool, v: string)
    ensures SanitizeOpt(NonEmptyOpt(Pick(b, v))) == Pick(b, Sanitize(v)) <==> (b ==> Tidy(v))
  {
    TrimShortens(v);
    assert |Sanitize(v)| == |v| && |Sanitize(Trim(v))| == |Trim(v)|;
    hide Sanitize, Trim;
  }

  lemma NamedIff(q: Request, s: Selection)
    ensures DimsOf(RuleFor(q, s)) == Named(q, s) <==> TidySelection(q, s)
  {
    TrimShortens(q.tenant);
    assert |Sanitize(q.tenant)| == |q.tenant| && |Sanitize(Trim(q.tenant))| == |Trim(q.tenant)|;
    SelectedIff(s.model, q.model);
    SelectedIff(s.path, q.path);
    SelectedIff(s.policy, q.policy);
    hide Sanitize, Trim, Tidy;
  }

  lemma PartLength(name: string, v: Option<string>)
    ensures |Part(name, v)| == if v.None? then 0 else |name| + 2 + |v.value|
  {
  }

  /** A value that is not tidy makes the part of the rule key shorter than that of the candidate. */
  lemma SelectedLength(name: string, b: bool, v: string)
    ensures var rule, named := Part(name, SanitizeOpt(NonEmptyOpt(Pick(b, v)))), Part(name, Pick(b, Sanitize(v)));
      |rule| <= |named| && (|rule| == |named| ==> (b ==> Tidy(v)))
  {
    TrimShortens(v);
    PartLength(name, SanitizeOpt(NonEmptyOpt(Pick(b, v))));
    PartLength(name, Pick(b, Sanitize(v)));
    assert |Sanitize(v)| == |v| && |Sanitize(Trim(v))| == |Trim(v)|;
    hide Part, Sanitize, Trim;
  }

  lemma KeyLength(prefix: string, d: Dims)
    ensures |KeyOf(prefix, d)|
      == |prefix| + |d.tenant| + |Part("model", d.model)| + |Part("path", d.path)| + |Part("policy", d.policy)|
  {
    hide Part;
  }

  /** Only a tidy selection gives a rule key as long as the candidate. */
  lemma SameLengthIsTidy(prefix: string, q: Request, s: Selection)
    requires |KeyOf(prefix, DimsOf(RuleFor(q, s)))| == |KeyOf(prefix, Named(q, s))|
    ensures TidySelection(q, s)
  {
    KeyLength(prefix, DimsOf(RuleFor(q, s)));
    KeyLength(prefix, Named(q, s));
    TrimShortens(q.tenant);
    assert |Sanitize(q.tenant)| == |q.tenant| && |Sanitize(Trim(q.tenant))| == |Trim(q.tenant)|;
    SelectedLength("model", s.model, q.model);
    SelectedLength("path", s.path, q.path);
    SelectedLength("policy", s.policy, q.policy);
    hide KeyOf, Part, Sanitize, Trim, Tidy, NonEmptyOpt, SanitizeOpt;
  }

  /**
   For every request, candidate i is the key of the rule an administrator writes for selection i exactly when
   the selected values are not empty and nothing can be trimmed off them or the tenant: rule keys are trimmed,
   candidates are not.
   */
  lemma CandidateIsRuleKeyIff(prefix: string, q: Request, i: nat)
    requires i < 8
    ensures var s := SelectionAt(i);
      Candidates(prefix, q)[i] == KeyOf(prefix, DimsOf(RuleFor(q, s))) <==> TidySelection(q, s)
  {
    var s := SelectionAt(i);
    CandidateKey(prefix, q, i);
    NamedIff(q, s);
    hide Candidates, KeyOf, Named, DimsOf, TidySelection;
    if KeyOf(prefix, Named(q, s)) == KeyOf(prefix, DimsOf(RuleFor(q, s))) {
      SameLengthIsTidy(prefix, q, s);
    }
  }

  /** The place of a selection in the order of the candidates. */
  function PlaceOf(s: Selection): (i: nat)
    ensures i < 8 && SelectionAt(i) == s
  {
    if s.model then (if s.path then (if s.policy then 0 else 1) else (if s.policy then 2 else 4))
    else (if s.path then (if s.policy then 3 else 5) else (if s.policy then 6 else 7))
  }

  lemma MostSpecificFirst(i: nat, k: nat)
    requires i <= k < 8
    ensures Specificity(SelectionAt(i)) >= Specificity(SelectionAt(k))
  {
  }

  /** The eight candidates of a request without colons are eight different keys. */
  lemma CandidatesAreDistinct(prefix: string, q: Request, i: nat, k: nat)
    requires i < k < 8 && q.tenant != ""
    requires ':' !in q.tenant && ':' !in q.model && ':' !in q.path && ':' !in q.policy
    ensures Candidates(prefix, q)[i] != Candidates(prefix, q)[k]
  {
    hide *;
    CandidateKey(prefix, q, i);
    CandidateKey(prefix, q, k);
    NamedPlain(q, SelectionAt(i));
    NamedPlain(q, SelectionAt(k));
    SelectionsDiffer(i, k);
    NamedDiffer(q, SelectionAt(i), SelectionAt(k));
    if Candidates(prefix, q)[i] == Candidates(prefix, q)[k] {
      KeysAreDistinct(prefix, Named(q, SelectionAt(i)), Named(q, SelectionAt(k)));
    }
  }

  lemma NamedPlain(q: Request, s: Selection)
    requires q.tenant != "" && ':' !in q.tenant && ':' !in q.model && ':' !in q.path && ':' !in q.policy
    ensures ColonFree(Named(q, s))
  {
    SanitizeKeepsColons(q.tenant);
    SanitizeKeepsColons(q.model);
    SanitizeKeepsColons(q.path);
    SanitizeKeepsColons(q.policy);
    hide Sanitize;
  }

  lemma SelectionsDiffer(i: nat, k: nat)
    requires i < k < 8
    ensures SelectionAt(i) != SelectionAt(k)
  {
  }

  lemma NamedDiffer(q: Request, a: Selection, b: Selection)
    requires a != b
    ensures Named(q, a) != Named(q, b)
  {
  }

  // ---------------------------------------------------------------- resolving

  datatype Reply = Missing | Value(raw: string) | Broken

  /** What read n of a key answers; between reads the stored rules may change. */
  type Reads = (nat, string) -> Reply

  /** The limit read n finds under a key, if there is one that parses. */
  function Found(redis: Reads, parse: string -> Option<Limit>, n: nat, key: string): Option<Limit> {
    if redis(n, key).Value? then parse(redis(n, key).raw) else None
  }

  /** Nothing is found before key i, and all keys before it could be read. */
  ghost predicate NothingBefore(redis: Reads, parse: string -> Option<Limit>, keys: seq<string>, i: nat)
    requires i <= |keys|
  {
    forall k :: 0 <= k < i ==> !redis(k, keys[k]).Broken? && Found(redis, parse, k, keys[k]).None?
  }

  /** Key i is the first that can be answered from, or that cannot be read. */
  ghost predicate Decides(redis: Reads, parse: string -> Option<Limit>, keys: seq<string>, i: nat) {
    && i < |keys| && NothingBefore(redis, parse, keys, i)
    && (redis(i, keys[i]).Broken? || Found(redis, parse, i, keys[i]).Some?)
  }

  /** resolve_rate_limit: `redis` answers each GET, `parse` reads a stored limit, `fallback` is the global limit. */
  method ResolveRateLimit(prefix: string, q: Request, redis: Reads, parse: string -> Option<Limit>, fallback: Limit)
    returns (r: Result<Limit>)
    ensures var keys := Candidates(prefix, q);
      && (NothingBefore(redis, parse, keys, 8) ==> r == Ok(fallback))
      && (!NothingBefore(redis, parse, keys, 8) ==> exists i: nat :: Decides(redis, parse, keys, i))
      && (forall i: nat :: Decides(redis, parse, keys, i) ==>
            r == if redis(i, keys[i]).Broken? then Err else Ok(Found(redis, parse, i, keys[i]).value))
  {
    hide Candidates;
    var keys := Candidates(prefix, q);
    for i := 0 to |keys|
      invariant NothingBefore(redis, parse, keys, i)
    {
      var reply := redis(i, keys[i]);
      if reply.Broken? {
        assert Decides(redis, parse, keys, i);
        return Err;
      }
      if reply.Value? {
        var limit := parse(reply.raw);
        if limit.Some? {
          assert Decides(redis, parse, keys, i);
          return Ok(limit.value);
        }
      }
    }
    return Ok(fallback);
  }

  /**
   Whatever candidate decides, no rule for more dimensions of the request is passed over: any selection whose
   rule its own read would find is at most as specific. If none decides there is none.
   */
  lemma MostSpecificWins(prefix: string, q: Request, redis: Reads, parse: string -> Option<Limit>, s: Selection)
    requires TidySelection(q, s)
    requires Found(redis, parse, PlaceOf(s), KeyOf(prefix, DimsOf(RuleFor(q, s)))).Some?
    ensures var keys := Candidates(prefix, q);
      && !NothingBefore(redis, parse, keys, 8)
      && forall i: nat :: Decides(redis, parse, keys, i) ==> Specificity(SelectionAt(i)) >= Specificity(s)
  {
    var place := PlaceOf(s);
    CandidateKey(prefix, q, place);
    NamedIff(q, s);
    hide Candidates, KeyOf, DimsOf, Named, Specificity;
    var keys := Candidates(prefix, q);
    assert Found(redis, parse, place, keys[place]).Some?;
    forall i: nat | Decides(redis, parse, keys, i) ensures Specificity(SelectionAt(i)) >= Specificity(s) {
      assert i <= place;
      MostSpecificFirst(i, place);
    }
  }
}
