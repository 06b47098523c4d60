/**
Command text for recipe steps, and its meaning: a lexer for the shell command language
(token recognition and the quoting rules of POSIX.1-2017, Shell Command Language,
sections 2.2.1 to 2.2.3 and 2.3). An unquoted or double-quoted `$` or backquote is
active, and `${`, `$(` and a backquote open a unit that is read to its end.
*/
module Shell {
  import opened Records

  // ---- The lexer ----

  /** `Active` characters are those of an expansion: a `$` and the whole of a unit that is read to its end. */
  datatype Quote = Bare | InDouble | Literal | Active
  datatype QChar = QChar(c: char, quote: Quote)
  datatype Token = Word(chars: seq<QChar>) | IoNumber(digits: string) | Operator(text: string) | Newline
  datatype Mode = Plain | Single | Double | Escape | DoubleEscape | Comment

  /** What is open inside a unit; a brace unit within double quotes gives single quotes no meaning. */
  datatype Open = Brace(quoted: bool) | Paren | Back | SingleQuotes | DoubleQuotes

  /** `word` is the word being read, `op` the operator being read, `out` the finished tokens. `units` are the open
      units, innermost first; `dollar` says that the last character was an active `$`, `esc` that it was a backslash
      inside a unit. */
  datatype Lexer = Lexer(mode: Mode, word: Option<seq<QChar>>, op: string, out: seq<Token>,
                         units: seq<Open>, dollar: bool, esc: bool)

  datatype LexResult = Tokens(tokens: seq<Token>) | Unterminated

  const START := Lexer(Plain, None, "", [], [], false, false)

  predicate Special(c: char) {
    || OperatorChar(c) || c == ' ' || c == '\t' || c == '\n'
    || c == '\'' || c == '"' || c == '\\' || c == '$' || c == '`'
  }

  predicate OperatorChar(c: char) {
    c == '&' || c == '|' || c == ';' || c == '<' || c == '>' || c == '(' || c == ')'
  }

  /** `op + [c]` is still an operator. */
  predicate Extends(op: string, c: char) {
    || (|op| == 1 && ((op[0] == '&' && c == '&') || (op[0] == '|' && c == '|') || (op[0] == ';' && c == ';')
                      || (op[0] == '<' && c in {'<', '&', '>'}) || (op[0] == '>' && c in {'>', '&', '|'})))
    || (|op| == 2 && op[0] == '<' && op[1] == '<' && c == '-')
  }

  function Current(l: Lexer): seq<QChar> {
    if l.word.Some? then l.word.value else []
  }

  function Put(l: Lexer, c: char, quote: Quote): Lexer {
    l.(word := Some(Current(l) + [QChar(c, quote)]))
  }

  function EndWord(l: Lexer): Lexer {
    if l.word.Some? then l.(word := None, out := l.out + [Word(l.word.value)]) else l
  }

  predicate Number(w: seq<QChar>) {
    w != [] && forall i :: 0 <= i < |w| ==> w[i].quote == Bare && '0' <= w[i].c <= '9'
  }

  function Text(w: seq<QChar>): string {
    seq(|w|, i requires 0 <= i < |w| => w[i].c)
  }

  /** A word of digits right before a redirection names the descriptor. */
  function EndBefore(l: Lexer, c: char): Lexer {
    if (c == '<' || c == '>') && l.word.Some? && Number(l.word.value)
    then l.(word := None, out := l.out + [IoNumber(Text(l.word.value))])
    else EndWord(l)
  }

  function EndOperator(l: Lexer): Lexer {
    if l.op != "" then l.(op := "", out := l.out + [Operator(l.op)]) else l
  }

  function EndLine(l: Lexer): Lexer {
    l.(out := l.out + [Newline])
  }

  /** Quotes make a word even if nothing is inside them. */
  function StartQuotes(l: Lexer, mode: Mode): Lexer {
    l.(mode := mode, word := Some(Current(l)))
  }

  function PlainStep(l: Lexer, c: char): Lexer {
    if c == '\'' then StartQuotes(l, Single)
    else if c == '"' then StartQuotes(l, Double)
    else if c == '$' then Put(l, c, Active).(dollar := true)
    else if c == '`' then Put(l, c, Active).(units := [Back])
    else if c == ' ' || c == '\t' then EndWord(l)
    else if c == '\n' then EndLine(EndWord(l))
    else if OperatorChar(c) then EndBefore(l, c).(op := [c])
    else if c == '#' && l.word.None? then l.(mode := Comment)
    else Put(l, c, Bare)
  }

  predicate OpensUnit(dollar: bool, c: char) {
    dollar && (c == '{' || c == '(')
  }

  function UnitFor(c: char, quoted: bool): Open {
    if c == '{' then Brace(quoted) else Paren
  }

  /** A backslash before a newline joins lines, so it leaves an operator or a `$` waiting. */
  function PlainChar(l: Lexer, c: char): Lexer {
    var plain := l.(dollar := false);
    if c == '\\' then l.(mode := Escape)
    else if OpensUnit(l.dollar, c) then Put(plain, c, Active).(units := [UnitFor(c, false)])
    else if Extends(l.op, c) then plain.(op := l.op + [c])
    else PlainStep(EndOperator(plain), c)
  }

  function DoubleChar(l: Lexer, c: char): Lexer {
    var plain := l.(dollar := false);
    if c == '"' then plain.(mode := Plain)
    else if c == '\\' then l.(mode := DoubleEscape)
    else if OpensUnit(l.dollar, c) then Put(plain, c, Active).(units := [UnitFor(c, true)])
    else if c == '$' then Put(plain, c, Active).(dollar := true)
    else if c == '`' then Put(plain, c, Active).(units := [Back])
    else Put(plain, c, InDouble)
  }

  function EscapedChar(l: Lexer, c: char): Lexer {
    if c == '\n' then l.(mode := Plain) else Put(EndOperator(l.(dollar := false)), c, Literal).(mode := Plain)
  }

  function DoubleEscaped(l: Lexer, c: char): Lexer {
    var plain := l.(dollar := false);
    if c == '\n' then l.(mode := Double)
    else if c == '$' || c == '`' || c == '"' || c == '\\' then Put(plain, c, Literal).(mode := Double)
    else Put(Put(plain, '\\', InDouble), c, InDouble).(mode := Double)
  }

  function OutsideStep(l: Lexer, c: char): Lexer {
    match l.mode
    case Plain => PlainChar(l, c)
    case Single => if c == '\'' then l.(mode := Plain) else Put(l, c, Literal)
    case Double => DoubleChar(l, c)
    case Escape => EscapedChar(l, c)
    case DoubleEscape => DoubleEscaped(l, c)
    case Comment => if c == '\n' then EndLine(l).(mode := Plain) else l
  }

  predicate InQuotes(o: Open) {
    o == DoubleQuotes || o == Brace(true)
  }

  /** The open units after an unescaped character inside them; quotes and units nest. */
  function Nest(units: seq<Open>, dollar: bool, c: char): seq<Open>
    requires units != []
  {
    var top, rest := units[0], units[1..];
    if top == SingleQuotes then if c == '\'' then rest else units
    else if top == Back then if c == '`' then rest else units
    else if OpensUnit(dollar, c) then [UnitFor(c, InQuotes(top))] + units
    else if c == '`' then [Back] + units
    else if c == '"' then if top == DoubleQuotes then rest else [DoubleQuotes] + units
    else if c == '\'' && !InQuotes(top) then [SingleQuotes] + units
    else if (c == '}' && top.Brace?) || (c == ')' && top == Paren) then rest
    else if c == '(' && top == Paren then [Paren] + units
    else units
  }

  function InsideStep(l: Lexer, c: char): Lexer
    requires l.units != []
  {
    var put := Put(l, c, Active);
    if l.esc then put.(esc := false, dollar := l.dollar && c == '\n')
    else if c == '\\' && l.units[0] != SingleQuotes then put.(esc := true)
    else
      put.(units := Nest(l.units, l.dollar, c),
           dollar := c == '$' && l.units[0] != SingleQuotes && l.units[0] != Back)
  }

  function Step(l: Lexer, c: char): Lexer {
    if l.units != [] then InsideStep(l, c) else OutsideStep(l, c)
  }

  function Run(l: Lexer, s: string): Lexer
    decreases |s|
  {
    if s == "" then l else Run(Step(l, s[0]), s[1..])
  }

  function Finish(l: Lexer): LexResult {
    if l.units == [] && l.mode in {Plain, Comment} then Tokens(EndWord(EndOperator(l)).out) else Unterminated
  }

  function Lex(s: string): LexResult {
    Finish(Run(START, s))
  }

  function Prepend(tokens: seq<Token>, r: LexResult): LexResult {
    if r.Tokens? then Tokens(tokens + r.tokens) else r
  }

  function Quoted(s: string, quote: Quote): seq<QChar> {
    seq(|s|, i requires 0 <= i < |s| => QChar(s[i], quote))
  }

  // ---- Command text ----

  datatype Context = Context(workDir: string, env: map<string, string>, user: string)

  /** Every embedded single quote becomes: close, escaped quote, reopen. */
  function EscapeQuotes(s: string): string {
    if s == "" then "" else (if s[0] == '\'' then "'\\''" else [s[0]]) + EscapeQuotes(s[1..])
  }

  function Shellescape(s: string): string {
    "'" + EscapeQuotes(s) + "'"
  }

  predicate Leq(a: string, b: string) {
    a == "" || (b != "" && (a[0] < b[0] || (a[0] == b[0] && Leq(a[1..], b[1..]))))
  }

  predicate Sorted(keys: seq<string>) {
    forall i, j :: 0 <= i < j < |keys| ==> Leq(keys[i], keys[j]) && keys[i] != keys[j]
  }

  function Exports(keys: seq<string>, env: map<string, string>): string
    requires forall k :: k in keys ==> k in env
  {
    if keys == [] then ""
    else OneExport(keys[0], env[keys[0]]) + Exports(keys[1..], env)
  }

  function PrefixFor(ctx: Context, keys: seq<string>): string
    requires forall k :: k in keys ==> k in ctx.env
  {
    (if ctx.workDir != "" then "cd " + Shellescape(ctx.workDir) + " && " else "")
    + (if keys != [] then "export" + Exports(keys, ctx.env) + " && " else "")
  }

  /** The environment's keys in increasing order. */
  ghost predicate KeysOf(keys: seq<string>, ctx: Context) {
    Sorted(keys) && forall k :: k in keys <==> k in ctx.env
  }

  lemma {:induction false} LeqTotal(a: string, b: string)
    ensures Leq(a, b) || Leq(b, a)
  {
    if a != "" && b != "" { LeqTotal(a[1..], b[1..]); }
  }

  lemma {:induction false} LeqAntisymmetric(a: string, b: string)
    requires Leq(a, b) && Leq(b, a)
    ensures a == b
  {
    if a != "" && b != "" {
      LeqAntisymmetric(a[1..], b[1..]);
      assert a == [a[0]] + a[1..] && b == [b[0]] + b[1..];
    }
  }

  lemma {:induction false} LeqTransitive(a: string, b: string, c: string)
    requires Leq(a, b) && Leq(b, c)
    ensures Leq(a, c)
  {
    if a != "" && a[0] == b[0] && b[0] == c[0] { LeqTransitive(a[1..], b[1..], c[1..]); }
  }

  lemma TailKeys(keys: seq<string>, k: string)
    requires keys != [] && Sorted(keys)
    ensures k in keys[1..] <==> k in keys && k != keys[0]
  {
    assert keys == [keys[0]] + keys[1..];
  }

  /** There is one way to sort a set of keys, so the text cannot depend on the order a map is walked in. */
  lemma {:induction false} SortedKeysUnique(a: seq<string>, b: seq<string>)
    requires Sorted(a) && Sorted(b)
    requires forall k :: k in a <==> k in b
    ensures a == b
    decreases |a|
  {
    if a != [] { assert a[0] in b; }
    if b != [] { assert b[0] in a; }
    if a != [] {
      assert Leq(a[0], b[0]) by { if a[0] != b[0] { assert b[0] in a[1..]; } else { LeqTotal(a[0], b[0]); } }
      assert Leq(b[0], a[0]) by { if a[0] != b[0] { assert a[0] in b[1..]; } else { LeqTotal(a[0], b[0]); } }
      LeqAntisymmetric(a[0], b[0]);
      forall k ensures k in a[1..] <==> k in b[1..] {
        TailKeys(a, k);
        TailKeys(b, k);
      }
      SortedKeysUnique(a[1..], b[1..]);
      assert a == [a[0]] + a[1..] && b == [b[0]] + b[1..];
    }
  }

  /** Put one more key in its place. */
  function InsertKey(keys: seq<string>, k: string): (r: seq<string>)
    requires Sorted(keys) && k !in keys
    ensures Sorted(r) && forall x :: x in r <==> x == k || x in keys
  {
    if keys == [] then [k]
    else if Leq(k, keys[0]) then
      (LeqBefore(k, keys); [k] + keys)
    else
      assert keys == [keys[0]] + keys[1..];
      LeqTotal(k, keys[0]);
      var rest := InsertKey(keys[1..], k);
      assert forall i :: 0 <= i < |rest| ==> rest[i] in rest;
      [keys[0]] + rest
  }

  lemma LeqBefore(k: string, keys: seq<string>)
    requires keys != [] && Sorted(keys) && Leq(k, keys[0])
    ensures forall i :: 0 <= i < |keys| ==> Leq(k, keys[i])
  {
    forall i | 0 <= i < |keys| ensures Leq(k, keys[i]) {
      if i > 0 { LeqTransitive(k, keys[0], keys[i]); }
    }
  }

  /** The map's keys, walked in any order, then sorted. */
  method SortedKeys(env: map<string, string>) returns (keys: seq<string>)
    ensures Sorted(keys) && forall k :: k in keys <==> k in env
  {
    hide InsertKey, Sorted;
    assert Sorted([]) by { NoKeysSorted(); }
    keys := [];
    var todo := env.Keys;
    while todo != {}
      invariant todo <= env.Keys && Sorted(keys)
      invariant forall k :: k in keys <==> k in env && k !in todo
      decreases |todo|
    {
      var k := Pick(todo);
      keys := InsertKey(keys, k);
      todo := todo - {k};
    }
  }

  lemma NoKeysSorted()
    ensures Sorted([])
  {
  }

  lemma {:induction false} SortedKeysExist(names: set<string>)
    ensures exists keys :: Sorted(keys) && forall k :: k in keys <==> k in names
    decreases |names|
  {
    hide InsertKey, Sorted;
    if names == {} {
      NoKeysSorted();
      assert forall k :: k in [] <==> k in names;
    } else {
      var k :| k in names;
      SortedKeysExist(names - {k});
      var keys :| Sorted(keys) && forall x :: x in keys <==> x in names - {k};
      var more := InsertKey(keys, k);
      assert forall x :: x in more <==> x in names;
    }
  }

  ghost function SortedKeysOf(ctx: Context): (keys: seq<string>)
    ensures KeysOf(keys, ctx)
  {
    SortedKeysExist(ctx.env.Keys);
    var keys :| Sorted(keys) && forall k :: k in keys <==> k in ctx.env.Keys;
    keys
  }

  method ExportList(keys: seq<string>, env: map<string, string>) returns (text: string)
    requires forall k :: k in keys ==> k in env
    ensures text == Exports(keys, env)
  {
    text := "";
    for i := 0 to |keys|
      invariant text == Exports(keys[..i], env)
    {
      ExportsSnoc(keys[..i], keys[i], env);
      assert keys[..i + 1] == keys[..i] + [keys[i]];
      var one := " " + keys[i] + "=" + Shellescape(env[keys[i]]);
      text := text + one;
    }
    assert keys[..|keys|] == keys;
  }

  ghost function Prefix(ctx: Context): string {
    PrefixFor(ctx, SortedKeysOf(ctx))
  }

  /** `shellPrefix`: the text is the one the sorted keys give, whatever order the map was walked in. */
  method ShellPrefix(ctx: Context) returns (text: string)
    ensures text == Prefix(ctx)
  {
    hide Exports, Shellescape, Sorted, SortedKeysOf;
    var keys := SortedKeys(ctx.env);
    var cd, exports := "", "";
    if ctx.workDir != "" {
      cd := "cd " + Shellescape(ctx.workDir) + " && ";
    }
    if |keys| > 0 {
      var list := ExportList(keys, ctx.env);
      exports := "export" + list + " && ";
    }
    text := cd + exports;
    assert text == PrefixFor(ctx, keys);
    SortedKeysUnique(keys, SortedKeysOf(ctx));
  }

  function OneExport(k: string, v: string): string {
    " " + k + "=" + Shellescape(v)
  }

  lemma {:induction false} ExportsAppend(a: seq<string>, b: seq<string>, env: map<string, string>)
    requires (forall k :: k in a ==> k in env) && forall k :: k in b ==> k in env
    ensures forall k :: k in a + b ==> k in env
    ensures Exports(a + b, env) == Exports(a, env) + Exports(b, env)
    decreases |a|
  {
    if a == [] {
      assert a + b == b;
      return;
    }
    hide OneExport;
    assert (a + b)[1..] == a[1..] + b;
    ExportsAppend(a[1..], b, env);
    var first := OneExport(a[0], env[a[0]]);
    assert first + Exports(a[1..], env) + Exports(b, env) == first + (Exports(a[1..], env) + Exports(b, env));
  }

  lemma ExportsSnoc(keys: seq<string>, k: string, env: map<string, string>)
    requires k in env && forall x :: x in keys ==> x in env
    ensures forall x :: x in keys + [k] ==> x in env
    ensures Exports(keys + [k], env) == Exports(keys, env) + OneExport(k, env[k])
  {
    hide OneExport;
    ExportsAppend(keys, [k], env);
    assert [k][1..] == [];
    assert OneExport(k, env[k]) + "" == OneExport(k, env[k]);
  }

  function SuWrap(user: string, inner: string): string {
    if user != "" && user != "root" then "su " + Shellescape(user) + " -c " + Shellescape(inner) else inner
  }

  const LOGIN_SHELL := "${" + "SHELL:-/bin/sh" + "}"
  const NOHUP := "nohup " + ("\"" + LOGIN_SHELL + "\" ") + "-c "
  const QUIET := ">/dev/null 2>&1 "
  const DETACHED := " " + QUIET + "&"

  ghost function Wrapped(ctx: Context, cmd: string): string {
    SuWrap(ctx.user, Prefix(ctx) + cmd)
  }

  ghost function Started(ctx: Context, cmd: string): string {
    SuWrap(ctx.user, Prefix(ctx) + NOHUP + Shellescape(cmd) + DETACHED)
  }

  method WrappedCommand(ctx: Context, cmd: string) returns (text: string)
    ensures text == Wrapped(ctx, cmd)
  {
    var prefix := ShellPrefix(ctx);
    var inner := prefix + cmd;
    if ctx.user != "" && ctx.user != "root" {
      text := "su " + Shellescape(ctx.user) + " -c " + Shellescape(inner);
    } else {
      text := inner;
    }
  }

  method StartCommand(ctx: Context, cmd: string) returns (text: string)
    ensures text == Started(ctx, cmd)
  {
    var prefix := ShellPrefix(ctx);
    var inner := prefix + NOHUP + Shellescape(cmd) + DETACHED;
    if ctx.user != "" && ctx.user != "root" {
      text := "su " + Shellescape(ctx.user) + " -c " + Shellescape(inner);
    } else {
      text := inner;
    }
  }
}
