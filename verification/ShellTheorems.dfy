/** Quoting preserves meaning: what the generated command text lexes to. */
module ShellTheorems {
  import opened Records
  import opened Shell

  // ---- The lexer reads left to right ----

  lemma {:induction false} RunAppend(l: Lexer, a: string, b: string)
    ensures Run(l, a + b) == Run(Run(l, a), b)
    decreases |a|
  {
    if a == "" {
      assert a + b == b;
    } else {
      assert (a + b)[1..] == a[1..] + b;
      RunAppend(Step(l, a[0]), a[1..], b);
    }
  }

  lemma RunOne(l: Lexer, c: char)
    ensures Run(l, [c]) == Step(l, c)
  {
    assert [c][1..] == "";
  }

  function Shift(pre: seq<Token>, l: Lexer): Lexer {
    l.(out := pre + l.out)
  }

  lemma EndShift(pre: seq<Token>, l: Lexer, c: char)
    ensures EndWord(Shift(pre, l)) == Shift(pre, EndWord(l))
    ensures EndBefore(Shift(pre, l), c) == Shift(pre, EndBefore(l, c))
    ensures EndOperator(Shift(pre, l)) == Shift(pre, EndOperator(l))
  {
    hide Number, Text;
    if l.word.Some? {
      assert pre + l.out + [Word(l.word.value)] == pre + (l.out + [Word(l.word.value)]);
      var n := IoNumber(Text(l.word.value));
      assert pre + l.out + [n] == pre + (l.out + [n]);
    }
    assert pre + l.out + [Operator(l.op)] == pre + (l.out + [Operator(l.op)]);
  }

  lemma PiecesShift(pre: seq<Token>, l: Lexer, c: char, quote: Quote, mode: Mode)
    ensures EndLine(Shift(pre, l)) == Shift(pre, EndLine(l))
    ensures Put(Shift(pre, l), c, quote) == Shift(pre, Put(l, c, quote))
    ensures StartQuotes(Shift(pre, l), mode) == Shift(pre, StartQuotes(l, mode))
  {
    assert pre + l.out + [Newline] == pre + (l.out + [Newline]);
  }

  lemma PlainStepShift(pre: seq<Token>, l: Lexer, c: char)
    ensures PlainStep(Shift(pre, l), c) == Shift(pre, PlainStep(l, c))
  {
    hide EndWord, EndBefore, EndLine, Put, StartQuotes, OperatorChar;
    EndShift(pre, l, c);
    PiecesShift(pre, EndWord(l), c, Bare, Single);
    PiecesShift(pre, l, c, Bare, Single);
    PiecesShift(pre, l, c, Active, Double);
  }

  lemma PlainCharShift(pre: seq<Token>, l: Lexer, c: char)
    ensures PlainChar(Shift(pre, l), c) == Shift(pre, PlainChar(l, c))
  {
    var plain := l.(dollar := false);
    EndShift(pre, plain, c);
    PlainStepShift(pre, EndOperator(plain), c);
    hide PlainStep, EndOperator, Extends, UnitFor, OpensUnit;
  }

  lemma EscapedShift(pre: seq<Token>, l: Lexer, c: char)
    ensures EscapedChar(Shift(pre, l), c) == Shift(pre, EscapedChar(l, c))
  {
    EndShift(pre, l.(dollar := false), c);
    hide EndOperator;
  }

  lemma DoubleShift(pre: seq<Token>, l: Lexer, c: char)
    ensures DoubleChar(Shift(pre, l), c) == Shift(pre, DoubleChar(l, c))
  {
    hide UnitFor, OpensUnit, Put, StartQuotes, EndLine;
    PiecesShift(pre, l.(dollar := false), c, Active, Single);
    PiecesShift(pre, l.(dollar := false), c, InDouble, Single);
  }

  lemma DoubleEscapedShift(pre: seq<Token>, l: Lexer, c: char)
    ensures DoubleEscaped(Shift(pre, l), c) == Shift(pre, DoubleEscaped(l, c))
  {
    hide Put, StartQuotes, EndLine;
    var plain := l.(dollar := false);
    PiecesShift(pre, plain, c, Literal, Single);
    PiecesShift(pre, plain, '\\', InDouble, Single);
    PiecesShift(pre, Put(plain, '\\', InDouble), c, InDouble, Single);
  }

  lemma InsideShift(pre: seq<Token>, l: Lexer, c: char)
    requires l.units != []
    ensures InsideStep(Shift(pre, l), c) == Shift(pre, InsideStep(l, c))
  {
    hide Nest;
  }

  lemma StepShift(pre: seq<Token>, l: Lexer, c: char)
    ensures Step(Shift(pre, l), c) == Shift(pre, Step(l, c))
  {
    if l.units != [] {
      InsideShift(pre, l, c);
    } else {
      PlainCharShift(pre, l, c);
      EscapedShift(pre, l, c);
      DoubleShift(pre, l, c);
      DoubleEscapedShift(pre, l, c);
      PiecesShift(pre, l, c, Literal, Single);
    }
    hide EndLine, Put, PlainChar, EscapedChar, DoubleChar, DoubleEscaped, InsideStep;
  }

  /** What has already been emitted never influences what comes next. */
  lemma {:induction false} RunShift(pre: seq<Token>, l: Lexer, s: string)
    ensures Run(Shift(pre, l), s) == Shift(pre, Run(l, s))
    decreases |s|
  {
    if s != "" {
      StepShift(pre, l, s[0]);
      RunShift(pre, Step(l, s[0]), s[1..]);
    }
  }

  /** Text that brings the lexer back to its start state contributes its tokens and nothing else. */
  lemma LexAfter(pre: seq<Token>, text: string, rest: string)
    requires Run(START, text) == START.(out := pre)
    ensures Lex(text + rest) == Prepend(pre, Lex(rest))
  {
    RunAppend(START, text, rest);
    assert pre + [] == pre;
    RunShift(pre, START, rest);
    var l := Run(START, rest);
    EndShift(pre, l, ' ');
    EndShift(pre, EndOperator(l), ' ');
  }

  // ---- Pieces of text ----

  /** Outside every unit, with no `$` or backslash waiting. */
  predicate Settled(l: Lexer) {
    l.units == [] && !l.dollar && !l.esc
  }

  /** Between operators, outside quotes. */
  predicate Reading(l: Lexer) {
    l.mode == Plain && l.op == "" && Settled(l)
  }

  function WithWord(l: Lexer, more: seq<QChar>): Lexer {
    l.(word := Some(Current(l) + more))
  }

  lemma {:induction false} RunInSingle(l: Lexer, s: string)
    requires l.mode == Single && l.op == "" && l.word.Some? && Settled(l)
    ensures Run(l, EscapeQuotes(s)) == WithWord(l, Quoted(s, Literal))
    decreases |s|
  {
    if s == "" {
      assert Current(l) + Quoted(s, Literal) == Current(l);
    } else {
      var head := if s[0] == '\'' then "'\\''" else [s[0]];
      RunAppend(l, head, EscapeQuotes(s[1..]));
      var next := Put(l, s[0], Literal);
      assert Run(l, head) == next by {
        if s[0] == '\'' {
          EscapedQuote(l);
        } else {
          RunOne(l, s[0]);
        }
      }
      RunInSingle(next, s[1..]);
      assert Quoted(s, Literal) == [QChar(s[0], Literal)] + Quoted(s[1..], Literal);
      assert Current(next) + Quoted(s[1..], Literal) == Current(l) + Quoted(s, Literal);
    }
  }

  lemma EscapedQuote(l: Lexer)
    requires l.mode == Single && l.op == "" && l.word.Some? && Settled(l)
    ensures Run(l, "'\\''") == Put(l, '\'', Literal)
  {
    var l1 := l.(mode := Plain);
    var l2 := l.(mode := Escape);
    var l3 := Put(l1, '\'', Literal);
    assert Step(l, '\'') == l1 && Step(l1, '\\') == l2 && Step(l2, '\'') == l3;
    assert Step(l3, '\'') == Put(l, '\'', Literal);
    hide Step;
    assert "'\\''"[1..] == "\\''" && "\\''"[1..] == "''" && "''"[1..] == "'";
    RunOne(l3, '\'');
    assert Run(l2, "''") == Run(l3, "'");
    assert Run(l1, "\\''") == Run(l2, "''");
  }

  /** A quoted string extends the current word by exactly its characters, every one of them literal. */
  lemma RunShellescape(l: Lexer, s: string)
    requires Reading(l)
    ensures Run(l, Shellescape(s)) == WithWord(l, Quoted(s, Literal))
  {
    var open := l.(mode := Single, word := Some(Current(l)));
    RunOne(l, '\'');
    RunAppend(l, "'", EscapeQuotes(s));
    RunInSingle(open, s);
    RunAppend(l, "'" + EscapeQuotes(s), "'");
    RunOne(WithWord(open, Quoted(s, Literal)), '\'');
  }

  predicate Ordinary(s: string) {
    forall i :: 0 <= i < |s| ==> !Special(s[i])
  }

  /** Ordinary characters extend the current word, unless a `#` would start a comment. */
  lemma {:induction false} RunOrdinary(l: Lexer, s: string)
    requires Reading(l) && Ordinary(s) && s != "" && (l.word.None? ==> s[0] != '#')
    ensures Run(l, s) == WithWord(l, Quoted(s, Bare))
    decreases |s|
  {
    var next := Put(l, s[0], Bare);
    assert !Special(s[0]);
    assert Step(l, s[0]) == next;
    if |s| == 1 {
      RunOne(l, s[0]);
      assert Quoted(s, Bare) == [QChar(s[0], Bare)];
    } else {
      RunOrdinary(next, s[1..]);
      assert Quoted(s, Bare) == [QChar(s[0], Bare)] + Quoted(s[1..], Bare);
      assert Current(next) + Quoted(s[1..], Bare) == Current(l) + Quoted(s, Bare);
    }
  }

  lemma RunBlank(l: Lexer)
    requires Reading(l)
    ensures Run(l, " ") == EndWord(l)
  {
    RunOne(l, ' ');
  }

  function Emit(l: Lexer, token: Token): Lexer {
    l.(out := l.out + [token])
  }

  lemma RunWord(l: Lexer, w: string)
    requires Reading(l) && l.word.None? && Ordinary(w) && w != "" && w[0] != '#'
    ensures Run(l, w + " ") == Emit(l, Word(Quoted(w, Bare)))
  {
    RunAppend(l, w, " ");
    RunOrdinary(l, w);
    assert [] + Quoted(w, Bare) == Quoted(w, Bare);
    RunBlank(WithWord(l, Quoted(w, Bare)));
  }

  lemma RunQuotedWord(l: Lexer, s: string)
    requires Reading(l) && l.word.None?
    ensures Run(l, Shellescape(s) + " ") == Emit(l, Word(Quoted(s, Literal)))
  {
    RunAppend(l, Shellescape(s), " ");
    RunShellescape(l, s);
    assert [] + Quoted(s, Literal) == Quoted(s, Literal);
    RunBlank(WithWord(l, Quoted(s, Literal)));
  }

  lemma RunAnd(l: Lexer)
    requires Reading(l)
    ensures Run(l, " && ") == EndWord(l).(out := EndWord(l).out + [Operator("&&")])
  {
    hide Run, Step;
    RunBlank(l);
    RunDoubled(EndWord(l), '&');
    RunAppend(l, " ", ['&', '&'] + " ");
    assert " " + (['&', '&'] + " ") == " && ";
  }

  // ---- The preamble ----

  /** The word that sets a variable: the key bare, the value literal. */
  function OperandFor(k: string, v: string): seq<QChar> {
    Quoted(k + "=", Bare) + Quoted(v, Literal)
  }

  function ExportWords(keys: seq<string>, env: map<string, string>): seq<Token>
    requires forall k :: k in keys ==> k in env
  {
    if keys == [] then []
    else [Word(OperandFor(keys[0], env[keys[0]]))] + ExportWords(keys[1..], env)
  }

  /** The words the preamble stands for: change directory, then export each variable. */
  function PrefixTokens(ctx: Context, keys: seq<string>): seq<Token>
    requires forall k :: k in keys ==> k in ctx.env
  {
    (if ctx.workDir != "" then [Word(Quoted("cd", Bare)), Word(Quoted(ctx.workDir, Literal)), Operator("&&")] else [])
    + (if keys != [] then [Word(Quoted("export", Bare))] + ExportWords(keys, ctx.env) + [Operator("&&")] else [])
  }

  /** No key contains a character the shell treats specially or starts a comment. */
  predicate PlainKeys(keys: seq<string>) {
    forall i :: 0 <= i < |keys| ==> Ordinary(keys[i]) && (keys[i] != "" ==> keys[i][0] != '#')
  }

  /** Shell names, the only keys an export can take: letters, digits and underscores, no leading digit. */
  predicate IsName(k: string) {
    && k != "" && !('0' <= k[0] <= '9')
    && forall i :: 0 <= i < |k| ==> 'a' <= k[i] <= 'z' || 'A' <= k[i] <= 'Z' || '0' <= k[i] <= '9' || k[i] == '_'
  }

  lemma NamesArePlain(keys: seq<string>)
    requires forall i :: 0 <= i < |keys| ==> IsName(keys[i])
    ensures PlainKeys(keys)
  {
  }

  /** Reading one ` KEY='value'` finishes the word before it and leaves the assignment as the current word. */
  lemma RunExport(l: Lexer, k: string, v: string)
    requires Reading(l) && Ordinary(k) && (k != "" ==> k[0] != '#')
    ensures Run(l, OneExport(k, v)) == EndWord(l).(word := Some(OperandFor(k, v)))
  {
    hide Run, Step, Quoted, Shellescape;
    var name := k + "=";
    var blank := EndWord(l);
    RunBlank(l);
    RunAppend(l, " ", name);
    RunOrdinary(blank, name);
    var named := WithWord(blank, Quoted(name, Bare));
    assert [] + Quoted(name, Bare) == Quoted(name, Bare);
    RunAppend(l, " " + name, Shellescape(v));
    RunShellescape(named, v);
    assert " " + k + "=" + Shellescape(v) == " " + name + Shellescape(v);
  }

  lemma {:induction false} RunExports(l: Lexer, keys: seq<string>, env: map<string, string>)
    requires forall k :: k in keys ==> k in env
    requires Reading(l) && l.word.Some? && PlainKeys(keys)
    ensures var r := Run(l, Exports(keys, env));
            Reading(r) && r.word.Some? && EndWord(r) == EndWord(l).(out := EndWord(l).out + ExportWords(keys, env))
    decreases |keys|
  {
    if keys == [] {
      RunNothing(l);
      assert EndWord(l).out + [] == EndWord(l).out;
      return;
    }
    assert Ordinary(keys[0]) && (keys[0] != "" ==> keys[0][0] != '#') && PlainKeys(keys[1..]);
    assert forall k :: k in keys[1..] ==> k in keys;
    var first, rest := OneExport(keys[0], env[keys[0]]), Exports(keys[1..], env);
    assert Exports(keys, env) == first + rest;
    RunExport(l, keys[0], env[keys[0]]);
    hide Run, Step, PlainKeys, Ordinary, Exports, OneExport, ExportWords, OperandFor;
    RunAppend(l, first, rest);
    RunExports(Run(l, first), keys[1..], env);
    MoreExportWords(EndWord(l), keys, env);
  }

  /** One more operand in front of the words of the other keys. */
  lemma MoreExportWords(l: Lexer, keys: seq<string>, env: map<string, string>)
    requires keys != [] && l.word.None? && forall k :: k in keys ==> k in env
    ensures forall k :: k in keys[1..] ==> k in env
    ensures var next := EndWord(l.(word := Some(OperandFor(keys[0], env[keys[0]]))));
            next.(out := next.out + ExportWords(keys[1..], env)) == l.(out := l.out + ExportWords(keys, env))
  {
    hide OperandFor;
    var w := [Word(OperandFor(keys[0], env[keys[0]]))];
    Associative(l.out, w, ExportWords(keys[1..], env));
  }

  lemma RunCd(dir: string)
    ensures Run(START, "cd " + Shellescape(dir) + " && ")
         == START.(out := [Word(Quoted("cd", Bare)), Word(Quoted(dir, Literal)), Operator("&&")])
  {
    hide Run, Step, Quoted, Shellescape;
    assert "cd" + " " == "cd ";
    RunWord(START, "cd");
    var l1 := Emit(START, Word(Quoted("cd", Bare)));
    RunAppend(START, "cd ", Shellescape(dir));
    RunShellescape(l1, dir);
    var l2 := WithWord(l1, Quoted(dir, Literal));
    assert l2.word == Some(Quoted(dir, Literal)) by { assert [] + Quoted(dir, Literal) == Quoted(dir, Literal); }
    RunAppend(START, "cd " + Shellescape(dir), " && ");
    RunAnd(l2);
  }

  lemma StartExport(l: Lexer)
    requires Reading(l) && l.word.None?
    ensures Run(l, "export") == l.(word := Some(Quoted("export", Bare)))
  {
    RunOrdinary(l, "export");
    assert [] + Quoted("export", Bare) == Quoted("export", Bare);
  }

  lemma RunExportList(keys: seq<string>, env: map<string, string>)
    requires keys != [] && (forall k :: k in keys ==> k in env) && PlainKeys(keys)
    ensures Run(START, "export" + Exports(keys, env) + " && ")
         == START.(out := [Word(Quoted("export", Bare))] + ExportWords(keys, env) + [Operator("&&")])
  {
    hide Run, Step, Exports, ExportWords, Quoted;
    var l1 := START.(word := Some(Quoted("export", Bare)));
    StartExport(START);
    RunAppend(START, "export", Exports(keys, env));
    RunExports(l1, keys, env);
    var l2 := Run(l1, Exports(keys, env));
    RunAppend(START, "export" + Exports(keys, env), " && ");
    RunAnd(l2);
  }

  lemma RunPrefix(ctx: Context, keys: seq<string>)
    requires (forall k :: k in keys ==> k in ctx.env) && PlainKeys(keys)
    ensures Run(START, PrefixFor(ctx, keys)) == START.(out := PrefixTokens(ctx, keys))
  {
    var cd := if ctx.workDir != "" then "cd " + Shellescape(ctx.workDir) + " && " else "";
    var exports := if keys != [] then "export" + Exports(keys, ctx.env) + " && " else "";
    RunAppend(START, cd, exports);
    if ctx.workDir != "" { RunCd(ctx.workDir); }
    if keys != [] { RunExportList(keys, ctx.env); }
    var after := Run(START, cd);
    assert after == Shift(after.out, START) by { assert after.out + [] == after.out; }
    RunShift(after.out, START, exports);
  }

  // ---- The theorems ----

  /** Lexing a quoted string gives that string back as one word, no character of which can still act. */
  lemma ShellescapeIsOneWord(s: string)
    ensures Lex(Shellescape(s)) == Tokens([Word(Quoted(s, Literal))])
  {
    RunShellescape(START, s);
    assert [] + Quoted(s, Literal) == Quoted(s, Literal);
    assert [] + [Word(Quoted(s, Literal))] == [Word(Quoted(s, Literal))];
  }

  /** The preamble followed by any command lexes to the intended cd and export words and then to exactly what
      the command alone lexes to, even if the command itself is malformed. */
  lemma PrefixThenCommand(ctx: Context, keys: seq<string>, cmd: string)
    requires KeysOf(keys, ctx) && PlainKeys(keys)
    ensures Lex(PrefixFor(ctx, keys) + cmd) == Prepend(PrefixTokens(ctx, keys), Lex(cmd))
  {
    RunPrefix(ctx, keys);
    LexAfter(PrefixTokens(ctx, keys), PrefixFor(ctx, keys), cmd);
  }

  function SuTokens(user: string, inner: string): LexResult {
    Tokens([Word(Quoted("su", Bare)), Word(Quoted(user, Literal)), Word(Quoted("-c", Bare)),
      Word(Quoted(inner, Literal))])
  }

  lemma SuWrapMeaning(user: string, inner: string)
    ensures Lex(SuWrap(user, inner)) == if user == "" || user == "root" then Lex(inner) else SuTokens(user, inner)
  {
    if user != "" && user != "root" { SuSeesInnerVerbatim(user, inner); }
  }

  /** For a user other than root, whatever the context and the command, the outer shell sees four words and hands
      su the inner text verbatim. */
  lemma SuSeesInnerVerbatim(user: string, inner: string)
    requires user != "" && user != "root"
    ensures Lex(SuWrap(user, inner)) == SuTokens(user, inner)
  {
    hide Run, Step, Shellescape, Quoted;
    assert "su" + " " == "su " && "-c" + " " == "-c ";
    RunWord(START, "su");
    var l1 := Emit(START, Word(Quoted("su", Bare)));
    RunQuotedWord(l1, user);
    var l2 := Emit(l1, Word(Quoted(user, Literal)));
    RunWord(l2, "-c");
    var l3 := Emit(l2, Word(Quoted("-c", Bare)));
    RunShellescape(l3, inner);
    RunAppend(START, "su ", Shellescape(user) + " ");
    RunAppend(START, "su " + (Shellescape(user) + " "), "-c ");
    RunAppend(START, "su " + (Shellescape(user) + " ") + "-c ", Shellescape(inner));
    assert [] + Quoted(inner, Literal) == Quoted(inner, Literal);
    assert SuWrap(user, inner) == "su " + (Shellescape(user) + " ") + "-c " + Shellescape(inner) by {
      assert " " + "-c " == " -c ";
      assert Shellescape(user) + " " + "-c " == Shellescape(user) + " -c ";
    }
  }

  // ---- The exact condition on keys ----

  predicate CleanWord(w: seq<QChar>) {
    forall i :: 0 <= i < |w| && w[i].quote == Bare ==> !Special(w[i].c)
  }

  predicate CleanToken(t: Token) {
    t.Word? ==> CleanWord(t.chars)
  }

  predicate Clean(l: Lexer) {
    (l.word.Some? ==> CleanWord(l.word.value)) && forall i :: 0 <= i < |l.out| ==> CleanToken(l.out[i])
  }

  lemma PutKeepsClean(l: Lexer, c: char, quote: Quote)
    requires Clean(l) && (quote == Bare ==> !Special(c))
    ensures Clean(Put(l, c, quote))
  {
  }

  lemma EndKeepsClean(l: Lexer, c: char)
    requires Clean(l)
    ensures Clean(EndWord(l)) && Clean(EndOperator(l)) && Clean(EndBefore(l, c))
  {
    hide Number, Text;
  }

  lemma PiecesKeepClean(l: Lexer, mode: Mode)
    requires Clean(l)
    ensures Clean(EndLine(l)) && Clean(StartQuotes(l, mode))
  {
  }

  lemma PlainStepKeepsClean(l: Lexer, c: char)
    requires Clean(l) && c != '\\'
    ensures Clean(PlainStep(l, c))
  {
    if !Special(c) { PutKeepsClean(l, c, Bare); }
    hide EndWord, EndBefore, EndLine, Put, StartQuotes, CleanWord, CleanToken;
    EndKeepsClean(l, c);
    PiecesKeepClean(EndWord(l), Single);
    PiecesKeepClean(l, Single);
    PiecesKeepClean(l, Double);
    PutKeepsClean(l, c, Active);
  }

  lemma PlainCharKeepsClean(l: Lexer, c: char)
    requires Clean(l)
    ensures Clean(PlainChar(l, c))
  {
    var plain := l.(dollar := false);
    EndKeepsClean(plain, c);
    if c != '\\' { PlainStepKeepsClean(EndOperator(plain), c); }
    PutKeepsClean(plain, c, Active);
    hide PlainStep, EndOperator, Put, CleanWord, CleanToken, Extends, UnitFor, OpensUnit;
  }

  lemma EscapedKeepsClean(l: Lexer, c: char)
    requires Clean(l)
    ensures Clean(EscapedChar(l, c))
  {
    var plain := l.(dollar := false);
    EndKeepsClean(plain, c);
    PutKeepsClean(EndOperator(plain), c, Literal);
    hide EndOperator, Put, CleanWord, CleanToken;
  }

  lemma QuotedKeepsClean(l: Lexer, c: char)
    requires Clean(l)
    ensures Clean(DoubleChar(l, c)) && Clean(DoubleEscaped(l, c))
  {
    var plain := l.(dollar := false);
    PutKeepsClean(plain, c, Active);
    PutKeepsClean(plain, c, Literal);
    PutKeepsClean(plain, c, InDouble);
    PutKeepsClean(plain, '\\', InDouble);
    PutKeepsClean(Put(plain, '\\', InDouble), c, InDouble);
    hide Put, CleanWord, CleanToken, UnitFor, OpensUnit;
  }

  lemma StepKeepsClean(l: Lexer, c: char)
    requires Clean(l)
    ensures Clean(Step(l, c))
  {
    PlainCharKeepsClean(l, c);
    EscapedKeepsClean(l, c);
    QuotedKeepsClean(l, c);
    PutKeepsClean(l, c, Active);
    PutKeepsClean(l, c, Literal);
    PiecesKeepClean(l, Single);
    hide EndLine, PlainChar, EscapedChar, DoubleChar, DoubleEscaped, Put, CleanWord, CleanToken, Nest;
  }

  /** A special character reaches a word only through quoting. */
  lemma {:induction false} RunKeepsClean(l: Lexer, s: string)
    requires Clean(l)
    ensures Clean(Run(l, s))
    decreases |s|
  {
    if s != "" {
      StepKeepsClean(l, s[0]);
      RunKeepsClean(Step(l, s[0]), s[1..]);
    }
  }

  lemma LexedWordsAreClean(s: string)
    ensures Lex(s).Tokens? ==> forall i :: 0 <= i < |Lex(s).tokens| ==> CleanToken(Lex(s).tokens[i])
  {
    RunKeepsClean(START, s);
  }

  lemma {:induction false} ExportWordsAt(keys: seq<string>, env: map<string, string>, i: nat)
    requires i < |keys| && forall k :: k in keys ==> k in env
    ensures |ExportWords(keys, env)| == |keys|
    ensures ExportWords(keys, env)[i] == Word(Quoted(keys[i] + "=", Bare) + Quoted(env[keys[i]], Literal))
    decreases |keys|
  {
    if |keys| > 1 {
      ExportWordsAt(keys[1..], env, if i == 0 then 0 else i - 1);
    }
  }

  lemma IntendedWordNeedsOrdinaryKey(ctx: Context, keys: seq<string>, rest: seq<Token>, i: nat)
    requires i < |keys| && forall k :: k in keys ==> k in ctx.env
    requires forall j :: 0 <= j < |PrefixTokens(ctx, keys) + rest| ==> CleanToken((PrefixTokens(ctx, keys) + rest)[j])
    ensures Ordinary(keys[i])
  {
    ExportWordsAt(keys, ctx.env, i);
    var w := ExportWords(keys, ctx.env)[i];
    var at := (if ctx.workDir != "" then 3 else 0) + 1 + i;
    assert (PrefixTokens(ctx, keys) + rest)[at] == w;
    assert CleanToken(w);
    forall j | 0 <= j < |keys[i]| ensures !Special(keys[i][j]) {
      assert w.chars[j] == QChar(keys[i][j], Bare);
    }
  }

  lemma {:induction false} OutGrows(l: Lexer, s: string)
    ensures l.out <= Run(l, s).out
    decreases |s|
  {
    if s != "" {
      StepOutGrows(l, s[0]);
      OutGrows(Step(l, s[0]), s[1..]);
    }
  }

  lemma PlainOutGrows(l: Lexer, c: char)
    ensures l.out <= PlainStep(l, c).out
  {
    hide Number, Text, OperatorChar;
  }

  lemma PlainCharOutGrows(l: Lexer, c: char)
    ensures l.out <= PlainChar(l, c).out
  {
    PlainOutGrows(EndOperator(l.(dollar := false)), c);
    hide PlainStep, Extends, OpensUnit, UnitFor;
  }

  lemma StepOutGrows(l: Lexer, c: char)
    ensures l.out <= Step(l, c).out
  {
    PlainCharOutGrows(l, c);
    hide PlainChar, Nest, OpensUnit, UnitFor;
  }

  /** After a comment has begun, the next token, if any, is a newline. */
  lemma {:induction false} CommentThenNewline(l: Lexer, s: string)
    requires l.mode == Comment && l.word.None? && l.op == "" && Settled(l)
    ensures var r := Finish(Run(l, s));
            r == Tokens(l.out) || r.Unterminated? || l.out + [Newline] <= r.tokens
    decreases |s|
  {
    if s != "" {
      if s[0] == '\n' {
        OutGrows(Step(l, s[0]), s[1..]);
      } else {
        CommentThenNewline(l, s[1..]);
      }
    }
  }

  lemma {:induction false} ExportWordsLength(keys: seq<string>, env: map<string, string>)
    requires forall k :: k in keys ==> k in env
    ensures |ExportWords(keys, env)| == |keys|
    decreases |keys|
  {
    if keys != [] { ExportWordsLength(keys[1..], env); }
  }

  /** The lexer, having read the keys before a `#` key and its blank, is inside a comment. */
  lemma RunIntoComment(l: Lexer, keys: seq<string>, env: map<string, string>)
    requires Reading(l) && l.word.Some? && PlainKeys(keys) && forall k :: k in keys ==> k in env
    ensures Run(l, Exports(keys, env) + " #")
            == EndWord(l).(mode := Comment, out := EndWord(l).out + ExportWords(keys, env))
  {
    hide Exports, ExportWords, PlainKeys;
    RunExports(l, keys, env);
    var r := Run(l, Exports(keys, env));
    RunAppend(l, Exports(keys, env), " #");
    assert " " + "#" == " #";
    RunAppend(r, " ", "#");
    RunBlank(r);
    RunOne(EndWord(r), '#');
  }

  function CdTokens(ctx: Context): seq<Token> {
    PrefixTokens(ctx, [])
  }

  /** A key that begins with `#` hides everything after it up to a newline. */
  lemma HashKeyBreaks(ctx: Context, keys: seq<string>, i: nat, cmd: string)
    requires i < |keys| && (forall k :: k in keys ==> k in ctx.env) && PlainKeys(keys[..i])
    requires keys[i] != "" && keys[i][0] == '#' && Lex(cmd).Tokens?
    ensures Lex(PrefixFor(ctx, keys) + cmd) != Prepend(PrefixTokens(ctx, keys), Lex(cmd))
  {
    hide Run, Step, Shellescape, Exports, Quoted;
    var env := ctx.env;
    var cd := PrefixFor(ctx, []);
    var before := "export" + (Exports(keys[..i], env) + " #");
    var after := keys[i][1..] + "=" + Shellescape(env[keys[i]]) + Exports(keys[i + 1..], env) + " && " + cmd;
    assert PrefixFor(ctx, keys) + cmd == cd + before + after by { HashSplit(ctx, keys, i, cmd); }
    var pre := CdTokens(ctx) + [Word(Quoted("export", Bare))];
    var inside := START.(mode := Comment, out := pre + ExportWords(keys[..i], env));
    assert Run(START, cd + before) == inside by { RunBeforeHash(ctx, keys[..i]); }
    RunAppend(START, cd + before, after);
    CommentThenNewline(inside, after);
    ExportWordsLength(keys[..i], env);
    ExportWordsAt(keys, env, i);
    var at := |inside.out|;
    var intended := PrefixTokens(ctx, keys) + Lex(cmd).tokens;
    assert intended[at] == ExportWords(keys, env)[i];
    assert (inside.out + [Newline])[at] == Newline;
  }

  lemma HashSplit(ctx: Context, keys: seq<string>, i: nat, cmd: string)
    requires i < |keys| && (forall k :: k in keys ==> k in ctx.env)
    requires keys[i] != "" && keys[i][0] == '#'
    ensures PrefixFor(ctx, keys) + cmd == PrefixFor(ctx, []) + ("export" + (Exports(keys[..i], ctx.env) + " #"))
      + (keys[i][1..] + "=" + Shellescape(ctx.env[keys[i]]) + Exports(keys[i + 1..], ctx.env) + " && " + cmd)
  {
    var cd, env := PrefixFor(ctx, []), ctx.env;
    var e1, e2, e3, v := Exports(keys[..i], env), Exports(keys[i..], env), Exports(keys[i + 1..], env),
      Shellescape(env[keys[i]]);
    PrefixSplit(ctx, keys, i);
    hide *;
    HashConcat(keys[i], "=" + v + e3);
    Regroup(cd, e1, keys[i][1..] + ("=" + v + e3), cmd);
    assert keys[i][1..] + ("=" + v + e3) == keys[i][1..] + "=" + v + e3;
  }

  lemma PrefixSplit(ctx: Context, keys: seq<string>, i: nat)
    requires i < |keys| && (forall k :: k in keys ==> k in ctx.env)
    ensures PrefixFor(ctx, keys) == PrefixFor(ctx, []) + ("export" + (Exports(keys[..i], ctx.env)
      + (" " + keys[i] + ("=" + Shellescape(ctx.env[keys[i]]) + Exports(keys[i + 1..], ctx.env)))) + " && ")
  {
    hide Shellescape;
    var env, v := ctx.env, Shellescape(ctx.env[keys[i]]);
    assert keys == keys[..i] + keys[i..];
    ExportsAppend(keys[..i], keys[i..], env);
    assert Exports(keys[i..], env) == " " + keys[i] + ("=" + v + Exports(keys[i + 1..], env)) by {
      assert keys[i..][1..] == keys[i + 1..];
      var e3 := Exports(keys[i + 1..], env);
      assert " " + keys[i] + "=" + v + e3 == " " + keys[i] + ("=" + v + e3);
    }
    hide Exports;
    assert PrefixFor(ctx, []) + "" == PrefixFor(ctx, []);
  }

  lemma HashConcat(k: string, t: string)
    requires k != "" && k[0] == '#'
    ensures " " + k + t == " #" + (k[1..] + t)
  {
    assert k == "#" + k[1..];
    assert " " + "#" == " #";
  }

  lemma Regroup(cd: string, e1: string, tail: string, cmd: string)
    ensures cd + ("export" + (e1 + (" #" + tail)) + " && ") + cmd
         == cd + ("export" + (e1 + " #")) + (tail + " && " + cmd)
  {
    assert e1 + (" #" + tail) == e1 + " #" + tail;
    assert "export" + (e1 + " #" + tail) + " && " == "export" + (e1 + " #") + (tail + " && ");
  }

  lemma RunBeforeHash(ctx: Context, keys: seq<string>)
    requires PlainKeys(keys) && forall k :: k in keys ==> k in ctx.env
    ensures Run(START, PrefixFor(ctx, []) + ("export" + (Exports(keys, ctx.env) + " #")))
         == START.(mode := Comment, out := CdTokens(ctx) + [Word(Quoted("export", Bare))] + ExportWords(keys, ctx.env))
  {
    assert PlainKeys([]);
    hide Run, Step, PrefixFor, PrefixTokens, Exports, ExportWords, Quoted, PlainKeys;
    var cd := PrefixFor(ctx, []);
    var text := Exports(keys, ctx.env) + " #";
    RunPrefix(ctx, []);
    var l0 := Run(START, cd);
    RunAppend(START, cd, "export" + text);
    StartExport(l0);
    RunAppend(l0, "export", text);
    RunIntoComment(l0.(word := Some(Quoted("export", Bare))), keys, ctx.env);
  }

  /** Keys are not quoted, so the preamble means what it should exactly when no key holds a character special to
      the shell and none begins a comment; shell names qualify. */
  lemma PreambleCorrectIff(ctx: Context, keys: seq<string>, cmd: string)
    requires KeysOf(keys, ctx) && Lex(cmd).Tokens?
    ensures Lex(PrefixFor(ctx, keys) + cmd) == Prepend(PrefixTokens(ctx, keys), Lex(cmd)) <==> PlainKeys(keys)
  {
    if PlainKeys(keys) {
      PrefixThenCommand(ctx, keys, cmd);
    } else if Lex(PrefixFor(ctx, keys) + cmd) == Prepend(PrefixTokens(ctx, keys), Lex(cmd)) {
      LexedWordsAreClean(PrefixFor(ctx, keys) + cmd);
      forall i | 0 <= i < |keys| ensures Ordinary(keys[i]) {
        IntendedWordNeedsOrdinaryKey(ctx, keys, Lex(cmd).tokens, i);
      }
      var i := FirstHash(keys);
      HashKeyBreaks(ctx, keys, i, cmd);
    }
  }

  lemma {:induction false} FirstHash(keys: seq<string>) returns (i: nat)
    requires !PlainKeys(keys) && forall j :: 0 <= j < |keys| ==> Ordinary(keys[j])
    ensures i < |keys| && PlainKeys(keys[..i]) && keys[i] != "" && keys[i][0] == '#'
  {
    if keys[0] != "" && keys[0][0] == '#' {
      i := 0;
    } else {
      assert keys == [keys[0]] + keys[1..];
      var j := FirstHash(keys[1..]);
      i := j + 1;
      assert keys[..i] == [keys[0]] + keys[1..][..j];
    }
  }

  // ---- What export makes of its operands ----

  datatype Operand = Assignment(name: string, value: seq<QChar>) | NotAnAssignment

  /** Position of the first equals sign, or the length. */
  function Equals(w: seq<QChar>): (i: nat)
    ensures i <= |w| && (i < |w| ==> w[i].c == '=') && forall j :: 0 <= j < i ==> w[j].c != '='
  {
    if w == [] || w[0].c == '=' then 0 else 1 + Equals(w[1..])
  }

  /** An operand of export sets a variable if it is an unquoted name, an equals sign and a value. */
  function ReadOperand(w: seq<QChar>): Operand {
    var i := Equals(w);
    if i < |w| && (forall j :: 0 <= j <= i ==> w[j].quote == Bare) && IsName(Text(w[..i]))
    then Assignment(Text(w[..i]), w[i + 1..])
    else NotAnAssignment
  }

  lemma OperandIffName(k: string, v: string)
    ensures ReadOperand(OperandFor(k, v)) == Assignment(k, Quoted(v, Literal)) <==> IsName(k)
  {
    var w, i := OperandFor(k, v), Equals(OperandFor(k, v));
    assert w[|k|] == QChar('=', Bare);
    assert forall j :: 0 <= j < |k| ==> w[j] == QChar(k[j], Bare);
    assert Text(w[..|k|]) == k && w[|k| + 1..] == Quoted(v, Literal);
    if IsName(k) {
      assert i == |k|;
    }
  }

  ghost predicate Assigns(keys: seq<string>, env: map<string, string>)
    requires forall k :: k in keys ==> k in env
  {
    forall i :: 0 <= i < |keys| ==>
      ReadOperand(OperandFor(keys[i], env[keys[i]])) == Assignment(keys[i], Quoted(env[keys[i]], Literal))
  }

  /** The preamble both lexes as intended and sets every variable to its value exactly when every key is a shell
      name. */
  lemma PreambleAssignsIff(ctx: Context, keys: seq<string>, cmd: string)
    requires KeysOf(keys, ctx) && Lex(cmd).Tokens?
    ensures (Lex(PrefixFor(ctx, keys) + cmd) == Prepend(PrefixTokens(ctx, keys), Lex(cmd)) && Assigns(keys, ctx.env))
       <==> forall i :: 0 <= i < |keys| ==> IsName(keys[i])
  {
    hide Lex, PrefixFor, PrefixTokens, Prepend;
    forall i | 0 <= i < |keys|
      ensures ReadOperand(OperandFor(keys[i], ctx.env[keys[i]]))
              == Assignment(keys[i], Quoted(ctx.env[keys[i]], Literal))
         <==> IsName(keys[i])
    {
      OperandIffName(keys[i], ctx.env[keys[i]]);
    }
    if forall i :: 0 <= i < |keys| ==> IsName(keys[i]) {
      NamesArePlain(keys);
      PrefixThenCommand(ctx, keys, cmd);
    }
  }

  // ---- Keys that break the preamble ----

  lemma {:induction false} RunInBack(l: Lexer, s: string)
    requires l.units == [Back] && !l.esc && '`' !in s && '\\' !in s
    ensures Run(l, s).units == [Back]
    decreases |s|
  {
    if s != "" {
      assert s[0] in s;
      RunInBack(Step(l, s[0]), s[1..]);
    }
  }

  lemma OpenBack(l: Lexer)
    requires Reading(l)
    ensures Run(l, "`").units == [Back] && !Run(l, "`").esc
  {
    RunOne(l, '`');
  }

  /** A key with a backquote swallows the rest of the text, up to a closing backquote that never comes. */
  lemma BackquoteKey(k: string, rest: string)
    requires PlainKeys([k]) && '`' !in rest && '\\' !in rest
    ensures Lex("export " + k + "`" + rest) == Unterminated
  {
    assert Ordinary(k) && (k != "" ==> k[0] != '#') by { assert [k][0] == k; }
    hide Run, Step, Quoted, PlainKeys;
    var l1 := Emit(START, Word(Quoted("export", Bare)));
    assert "export" + " " == "export ";
    RunWord(START, "export");
    var l2 := if k == "" then l1 else WithWord(l1, Quoted(k, Bare));
    assert Run(l1, k) == l2 by { if k == "" { RunNothing(l1); } else { RunOrdinary(l1, k); } }
    RunAppend(START, "export ", k);
    OpenBack(l2);
    RunAppend(START, "export " + k, "`");
    RunAppend(START, "export " + k + "`", rest);
    RunInBack(Run(l2, "`"), rest);
  }

  lemma RunNothing(l: Lexer)
    ensures Run(l, "") == l
  {
  }

  /** The key a`b is accepted by the recipe parser and makes any command without a backquote unreadable. */
  lemma BackquoteKeyBreaksPreamble(v: string, cmd: string)
    requires '`' !in Shellescape(v) && '\\' !in Shellescape(v) && '`' !in cmd && '\\' !in cmd
    ensures Lex(PrefixFor(Context("", map["a`b" := v], ""), ["a`b"]) + cmd) == Unterminated
  {
    var q := Shellescape(v);
    assert Ordinary("a") && PlainKeys(["a"]);
    BackquoteText(v, cmd);
    hide Lex, PrefixFor, PlainKeys, Shellescape;
    BackquoteKey("a", "b=" + q + " && " + cmd);
  }

  lemma BackquoteText(v: string, cmd: string)
    ensures PrefixFor(Context("", map["a`b" := v], ""), ["a`b"]) + cmd
         == "export " + "a" + "`" + ("b=" + Shellescape(v) + " && " + cmd)
  {
    hide Shellescape;
    var ctx, q := Context("", map["a`b" := v], ""), Shellescape(v);
    assert ["a`b"][1..] == [];
    assert Exports([], ctx.env) == "";
    assert PrefixFor(ctx, ["a`b"]) == "export" + (" " + "a`b" + "=" + q) + " && ";
    hide *;
    assert "export" + " " == "export " && "a" + "`" + "b=" == "a`b" + "=";
    assert "export" + (" " + "a`b" + "=" + q) + " && " + cmd == "export" + " " + ("a`b" + "=") + q + " && " + cmd;
    assert "export " + "a" + "`" + ("b=" + q + " && " + cmd) == "export " + ("a" + "`" + "b=") + q + " && " + cmd;
  }

  // ---- Whole commands ----

  /** A RUN step's text: the shell that runs the step, reached through su or not, sees the intended cd and export
      words and then exactly the command's own tokens. */
  lemma WrappedMeaning(ctx: Context, cmd: string)
    requires forall k :: k in ctx.env ==> IsName(k)
    ensures var inner := Prefix(ctx) + cmd;
            && Lex(inner) == Prepend(PrefixTokens(ctx, SortedKeysOf(ctx)), Lex(cmd))
            && Lex(Wrapped(ctx, cmd)) == if ctx.user == "" || ctx.user == "root" then Lex(inner)
              else SuTokens(ctx.user, inner)
  {
    hide Lex, SuWrap;
    NamesArePlain(SortedKeysOf(ctx));
    PrefixThenCommand(ctx, SortedKeysOf(ctx), cmd);
    SuWrapMeaning(ctx.user, Prefix(ctx) + cmd);
  }

  // ---- Background commands ----

  /** Text of a brace unit that nothing inside closes or nests. */
  predicate PlainUnit(s: string) {
    forall i :: 0 <= i < |s| ==> s[i] !in {'"', '\\', '$', '`', '}'}
  }

  lemma {:induction false} RunInBrace(l: Lexer, s: string)
    requires l.units == [Brace(true)] && !l.dollar && !l.esc && l.word.Some? && PlainUnit(s)
    ensures Run(l, s) == WithWord(l, Quoted(s, Active))
    decreases |s|
  {
    if s == "" {
      assert Current(l) + Quoted(s, Active) == Current(l);
    } else {
      var next := Put(l, s[0], Active);
      assert Step(l, s[0]) == next;
      hide Step;
      RunInBrace(next, s[1..]);
      assert Quoted(s, Active) == [QChar(s[0], Active)] + Quoted(s[1..], Active);
      assert Current(next) + Quoted(s[1..], Active) == Current(l) + Quoted(s, Active);
    }
  }

  lemma OpenBrace(l: Lexer)
    requires l.mode == Double && l.word.Some? && Settled(l)
    ensures Run(l, "${") == WithWord(l, Quoted("${", Active)).(units := [Brace(true)])
  {
    var l1 := Put(l, '$', Active).(dollar := true);
    RunOne(l, '$');
    RunOne(l1, '{');
    assert "$" + "{" == "${";
    RunAppend(l, "$", "{");
    hide Run;
    assert Quoted("${", Active) == [QChar('$', Active)] + [QChar('{', Active)];
    Associative(Current(l), [QChar('$', Active)], [QChar('{', Active)]);
  }

  lemma CloseBrace(l: Lexer)
    requires l.units == [Brace(true)] && !l.dollar && !l.esc && l.word.Some?
    ensures Run(l, "}") == WithWord(l, Quoted("}", Active)).(units := [])
  {
    RunOne(l, '}');
    assert Quoted("}", Active) == [QChar('}', Active)];
  }

  lemma QuotedConcat(s: string, t: string, quote: Quote)
    ensures Quoted(s + t, quote) == Quoted(s, quote) + Quoted(t, quote)
  {
  }

  /** A brace unit inside double quotes, read to its end. */
  lemma RunBraceUnit(l: Lexer, s: string)
    requires l.mode == Double && l.word.Some? && Settled(l) && PlainUnit(s)
    ensures Run(l, "${" + s + "}") == WithWord(l, Quoted("${" + s + "}", Active))
  {
    hide Run, Step, Quoted, PlainUnit;
    OpenBrace(l);
    var l1 := WithWord(l, Quoted("${", Active)).(units := [Brace(true)]);
    RunInBrace(l1, s);
    RunAppend(l, "${", s);
    var l2 := WithWord(l1, Quoted(s, Active));
    CloseBrace(l2);
    RunAppend(l, "${" + s, "}");
    QuotedConcat("${", s, Active);
    QuotedConcat("${" + s, "}", Active);
    Associative(Current(l), Quoted("${", Active), Quoted(s, Active));
    Associative(Current(l), Quoted("${" + s, Active), Quoted("}", Active));
  }

  lemma RunDoubleQuote(l: Lexer)
    ensures Reading(l) ==> Run(l, "\"") == l.(mode := Double, word := Some(Current(l)))
    ensures l.mode == Double && Settled(l) ==> Run(l, "\"") == l.(mode := Plain)
  {
    RunOne(l, '"');
  }

  lemma RunExpansion(l: Lexer, s: string)
    requires Reading(l) && l.word.None? && PlainUnit(s)
    ensures Run(l, "\"" + ("${" + s + "}") + "\" ") == Emit(l, Word(Quoted("${" + s + "}", Active)))
  {
    hide Run, Step, Quoted;
    var unit := "${" + s + "}";
    var inside := l.(mode := Double, word := Some([]));
    RunDoubleQuote(l);
    RunAppend(l, "\"", unit);
    RunBraceUnit(inside, s);
    var l1 := WithWord(inside, Quoted(unit, Active));
    assert l1.word == Some(Quoted(unit, Active)) by { assert [] + Quoted(unit, Active) == Quoted(unit, Active); }
    RunAppend(l, "\"" + unit, "\" ");
    RunDoubleQuote(l1);
    assert "\"" + " " == "\" ";
    RunAppend(l1, "\"", " ");
    RunBlank(l1.(mode := Plain));
  }

  lemma RunAfterOperator(l: Lexer, w: string)
    requires l.mode == Plain && Settled(l) && l.word.None? && l.op != ""
    requires w != "" && Ordinary(w) && w[0] != '#' && !Extends(l.op, w[0])
    ensures Run(l, w) == WithWord(EndOperator(l), Quoted(w, Bare))
  {
    assert !Special(w[0]);
    RunOrdinary(EndOperator(l), w);
  }

  lemma RunExtend(l: Lexer, c: char)
    requires l.mode == Plain && Settled(l) && Extends(l.op, c)
    ensures Run(l, [c]) == l.(op := l.op + [c])
  {
    RunOne(l, c);
  }

  lemma RunOperator(l: Lexer, c: char)
    requires Reading(l) && OperatorChar(c)
    ensures Run(l, [c]) == EndBefore(l, c).(op := [c])
    ensures l.word.None? || c !in {'<', '>'} ==> EndBefore(l, c) == EndWord(l)
  {
    RunOne(l, c);
  }

  const DETACHED_TOKENS := QUIET_TOKENS + [Operator("&")]

  lemma RunDoubled(l: Lexer, c: char)
    requires Reading(l) && l.word.None? && c in {'&', '|', '>'}
    ensures Run(l, [c, c] + " ") == Emit(l, Operator([c, c]))
  {
    var l1 := l.(op := [c]);
    var l2 := l.(op := [c, c]);
    RunOperator(l, c);
    RunExtend(l1, c);
    assert [c] + [c] == [c, c];
    RunAppend(l, [c], [c]);
    RunAppend(l, [c, c], " ");
    RunOne(l2, ' ');
  }

  lemma RunAfterOperatorWord(l: Lexer, op: string, w: string)
    requires Reading(l) && l.word.None? && op != "" && w != "" && Ordinary(w) && w[0] != '#' && !Extends(op, w[0])
    ensures Run(l.(op := op), w + " ") == Emit(Emit(l, Operator(op)), Word(Quoted(w, Bare)))
  {
    hide Run, Step, Quoted, Ordinary, Extends;
    var l1 := Emit(l, Operator(op));
    RunAfterOperator(l.(op := op), w);
    RunAppend(l.(op := op), w, " ");
    assert [] + Quoted(w, Bare) == Quoted(w, Bare);
    RunBlank(WithWord(l1, Quoted(w, Bare)));
  }

  const QUIET_TOKENS := [Operator(">"), Word(Quoted("/dev/null", Bare)), IoNumber("2"), Operator(">&"),
    Word(Quoted("1", Bare))]

  lemma RunQuiet(l: Lexer)
    requires Reading(l) && l.word.None?
    ensures Run(l, QUIET) == l.(out := l.out + QUIET_TOKENS)
  {
    hide Run, Step, Quoted;
    RunOperator(l, '>');
    assert "/dev/null" + " " == "/dev/null ";
    RunAfterOperatorWord(l, ">", "/dev/null");
    RunAppend(l, ">", "/dev/null ");
    var l1 := Emit(Emit(l, Operator(">")), Word(Quoted("/dev/null", Bare)));
    RunDuplicate(l1);
    RunAppend(l, ">" + "/dev/null ", "2>&1 ");
    assert ">" + "/dev/null " + "2>&1 " == QUIET;
  }

  lemma RunTwo(l: Lexer)
    requires Reading(l) && l.word.None?
    ensures Run(l, "2" + ">") == Emit(l, IoNumber("2")).(op := ">")
  {
    hide Run, Step, Quoted;
    RunOrdinary(l, "2");
    var l1 := WithWord(l, Quoted("2", Bare));
    assert l1.word == Some(Quoted("2", Bare)) by { assert [] + Quoted("2", Bare) == Quoted("2", Bare); }
    RunOperator(l1, '>');
    RunAppend(l, "2", ">");
    NumberTwo();
  }

  lemma RunToOne(l: Lexer)
    requires Reading(l) && l.word.None?
    ensures Run(l.(op := ">"), "&" + "1 ") == Emit(Emit(l, Operator(">&")), Word(Quoted("1", Bare)))
  {
    hide Run, Step, Quoted;
    var l1 := l.(op := ">");
    RunExtend(l1, '&');
    assert ">" + "&" == ">&" && "1" + " " == "1 ";
    RunAfterOperatorWord(l, ">&", "1");
    RunAppend(l1, "&", "1 ");
  }

  lemma RunDuplicate(l: Lexer)
    requires Reading(l) && l.word.None?
    ensures Run(l, "2>&1 ") == l.(out := l.out + [IoNumber("2"), Operator(">&"), Word(Quoted("1", Bare))])
  {
    hide Run, Step, Quoted;
    RunTwo(l);
    RunToOne(Emit(l, IoNumber("2")));
    RunAppend(l, "2" + ">", "&" + "1 ");
    assert ("2" + ">") + ("&" + "1 ") == "2>&1 ";
  }

  lemma NumberTwo()
    ensures Number(Quoted("2", Bare)) && Text(Quoted("2", Bare)) == "2"
  {
    assert Quoted("2", Bare) == [QChar('2', Bare)];
  }

  lemma RunDetached(l: Lexer)
    requires Reading(l) && l.word.Some?
    ensures Finish(Run(l, DETACHED)) == Tokens(EndWord(l).out + DETACHED_TOKENS)
  {
    hide Run, Step, Quoted;
    var l1 := EndWord(l);
    RunBlank(l);
    RunAppend(l, " ", QUIET);
    RunQuiet(l1);
    RunAppend(l, " " + QUIET, "&");
    var l2 := l1.(out := l1.out + QUIET_TOKENS);
    RunOperator(l2, '&');
    assert l1.out + QUIET_TOKENS + [Operator("&")] == l1.out + DETACHED_TOKENS;
  }

  function StartTokens(cmd: string): seq<Token> {
    [Word(Quoted("nohup", Bare)), Word(Quoted(LOGIN_SHELL, Active)), Word(Quoted("-c", Bare)),
      Word(Quoted(cmd, Literal))]
    + DETACHED_TOKENS
  }

  lemma LexStart(cmd: string)
    ensures Lex(NOHUP + Shellescape(cmd) + DETACHED) == Tokens(StartTokens(cmd))
  {
    hide Run, Step, Shellescape, Quoted;
    RunNohup();
    var l1 := Run(START, NOHUP);
    RunAppend(START, NOHUP, Shellescape(cmd));
    RunShellescape(l1, cmd);
    var l2 := WithWord(l1, Quoted(cmd, Literal));
    assert l2.word == Some(Quoted(cmd, Literal)) by { assert [] + Quoted(cmd, Literal) == Quoted(cmd, Literal); }
    RunAppend(START, NOHUP + Shellescape(cmd), DETACHED);
    RunDetached(l2);
  }

  /** A START step lexes to the preamble, nohup with the login shell, the command as one literal word, and the
      redirections that detach it. */
  lemma StartedMeaning(ctx: Context, cmd: string)
    requires forall k :: k in ctx.env ==> IsName(k)
    ensures var inner := Prefix(ctx) + NOHUP + Shellescape(cmd) + DETACHED;
            && Lex(inner) == Tokens(PrefixTokens(ctx, SortedKeysOf(ctx)) + StartTokens(cmd))
            && Lex(Started(ctx, cmd)) == if ctx.user == "" || ctx.user == "root" then Lex(inner)
              else SuTokens(ctx.user, inner)
  {
    hide Lex, SuWrap, Shellescape, StartTokens;
    var rest := NOHUP + Shellescape(cmd) + DETACHED;
    LexStart(cmd);
    NamesArePlain(SortedKeysOf(ctx));
    PrefixThenCommand(ctx, SortedKeysOf(ctx), rest);
    assert Prefix(ctx) + rest == Prefix(ctx) + NOHUP + Shellescape(cmd) + DETACHED;
    SuWrapMeaning(ctx.user, Prefix(ctx) + rest);
  }

  lemma RunNohup()
    ensures Run(START, NOHUP) == START.(out :=
      [Word(Quoted("nohup", Bare)), Word(Quoted(LOGIN_SHELL, Active)), Word(Quoted("-c", Bare))])
  {
    hide Run, Step, Quoted;
    assert "nohup" + " " == "nohup " && "-c" + " " == "-c ";
    RunWord(START, "nohup");
    var l1 := Emit(START, Word(Quoted("nohup", Bare)));
    RunExpansion(l1, "SHELL:-/bin/sh");
    var l2 := Emit(l1, Word(Quoted(LOGIN_SHELL, Active)));
    RunWord(l2, "-c");
    RunAppend(START, "nohup ", "\"" + LOGIN_SHELL + "\" ");
    RunAppend(START, "nohup " + ("\"" + LOGIN_SHELL + "\" "), "-c ");
  }
}
