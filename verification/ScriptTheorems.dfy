/** What the scripts of COPY and USER steps lex to. */
module ScriptTheorems {
  import opened Records
  import opened Shell
  import opened ShellTheorems
  import Executor
  import Paths

  function Plain(w: string): Token {
    Word(Quoted(w, Bare))
  }

  function Exact(s: string): Token {
    Word(Quoted(s, Literal))
  }

  // ---- COPY ----

  /** The paths a COPY step reads, in order. */
  function SourcePaths(srcs: seq<string>): seq<string> {
    seq(|srcs|, i requires 0 <= i < |srcs| => Executor.BUILD_FILES_DIR + "/" + Paths.Clean(srcs[i]))
  }

  function Escaped(paths: seq<string>): seq<string> {
    seq(|paths|, i requires 0 <= i < |paths| => Shellescape(paths[i]))
  }

  const ARCHIVE := ["tmp", "build-files"]

  /** The first name the path keeps begins with two dots. */
  predicate DottedHead(src: string) {
    var kept := Paths.Kept(src);
    kept != [] && ".." < kept[0]
  }

  predicate Accepted(src: string) {
    !Paths.Rooted(src) && !Paths.Climbs(Paths.Split(src), 0) && !DottedHead(src)
  }

  /** The test on the cleaned path refuses rooted paths, paths that climb above where they start, and paths whose first
      name begins with two dots. */
  lemma EscapesIff(src: string)
    ensures Executor.Escapes(Paths.Clean(src)) <==> !Accepted(src)
  {
    hide Paths.Split, Paths.Resolve, Paths.Climbs, Paths.Join;
    var kept := Paths.Kept(src);
    Paths.KeptShape(src);
    if Paths.Rooted(src) {
      return;
    }
    Paths.AboveIffClimbs([], Paths.Split(src));
    if kept != [] {
      Paths.JoinHead(kept);
      assert kept[0] != "" && kept[0][0] in kept[0] && kept[0] != ".";
      assert Paths.Join(kept)[0] == kept[0][0] != '/';
      assert ".." <= Paths.Join(kept) <==> ".." <= kept[0];
    }
  }

  /** An accepted source is read from inside the archive, at the very place it names there. */
  lemma AcceptedIsInArchive(src: string)
    requires Accepted(src)
    ensures Paths.Locate([], Executor.BUILD_FILES_DIR + "/" + Paths.Clean(src))
         == Paths.Locate(ARCHIVE, src) == ARCHIVE + Paths.Kept(src)
  {
    hide Paths.Split, Paths.Resolve, Paths.Clean, Paths.Climbs;
    var cleaned := Paths.Clean(src);
    ArchiveParts(cleaned);
    Paths.SplitOfClean(src);
    Paths.CleanKeepsPlace(ARCHIVE, src);
    Paths.AboveIffClimbs([], Paths.Split(src));
    Paths.BelowStart(ARCHIVE, src);
  }

  lemma ArchiveParts(rest: string)
    ensures Paths.Locate([], Executor.BUILD_FILES_DIR + "/" + rest) == Paths.Walk(ARCHIVE, Paths.Split(rest))
  {
    hide Paths.Split, Paths.Walk;
    var parts := Paths.Split(rest);
    SplitOfArchive(rest);
    Paths.WalkAppend([], [""], ARCHIVE + parts);
    Paths.WalkAppend([], ARCHIVE, parts);
    Paths.WalkOne([], "");
    Paths.WalkNames([], ARCHIVE);
    assert [] + ARCHIVE == ARCHIVE;
  }

  lemma SplitOfArchive(rest: string)
    ensures Paths.Rooted(Executor.BUILD_FILES_DIR + "/" + rest)
    ensures Paths.Split(Executor.BUILD_FILES_DIR + "/" + rest) == [""] + (ARCHIVE + Paths.Split(rest))
  {
    hide Paths.Split;
    ArchiveText(rest);
    var tail := "build-files" + "/" + rest;
    Paths.SplitHead("build-files", rest);
    Paths.SplitHead("tmp", tail);
    Paths.SplitHead("", "tmp" + "/" + tail);
    assert ["tmp"] + (["build-files"] + Paths.Split(rest)) == ARCHIVE + Paths.Split(rest);
  }

  lemma ArchiveText(rest: string)
    ensures Executor.BUILD_FILES_DIR + "/" + rest == "" + "/" + ("tmp" + "/" + ("build-files" + "/" + rest))
  {
    var dir, tail := Executor.BUILD_FILES_DIR, "/" + rest;
    assert dir == "/tmp/" + "build-files" && "/tmp/" == "" + "/" + ("tmp" + "/");
    assert dir + "/" + rest == dir + tail && "build-files" + "/" + rest == "build-files" + tail;
  }

  /** Among relative paths that stay inside whatever directory they start from, exactly those whose first name begins
      with two dots are refused. */
  lemma RefusedInsideIff(src: string)
    requires !Paths.Rooted(src) && Paths.Inside(src)
    ensures Executor.Escapes(Paths.Clean(src)) <==> DottedHead(src)
  {
    EscapesIff(src);
    Paths.InsideIff(src);
  }

  /** A file of the archive that no COPY step can name. */
  lemma DottedNameIsRefused()
    ensures Executor.Escapes(Paths.Clean("..data")) && Paths.Inside("..data")
    ensures Paths.Locate(ARCHIVE, "..data") == ARCHIVE + ["..data"]
  {
    var src := "..data";
    Paths.SplitOne(src);
    assert [src][1..] == [];
    assert Paths.Kept(src) == [src];
    Paths.InsideIff(src);
    Paths.WalkOne(ARCHIVE, src);
    EscapesIff(src);
  }

  /** Source `i` is the first that is refused. */
  ghost predicate FirstRefused(srcs: seq<string>, i: int) {
    0 <= i < |srcs| && !Accepted(srcs[i]) && forall j :: 0 <= j < i ==> Accepted(srcs[j])
  }

  /** A COPY step goes ahead exactly when every source is accepted, and then reads each from the place in the archive
      that it names; otherwise the first that is refused is named. */
  lemma PlanMeaning(srcs: seq<string>)
    ensures var plan := Executor.PlanCopy(srcs);
            && (plan.Sources? <==> forall i :: 0 <= i < |srcs| ==> Accepted(srcs[i]))
            && (plan.Sources? ==> plan.words == Escaped(SourcePaths(srcs)))
            && (plan.Reject? ==> exists i :: FirstRefused(srcs, i) && plan.src == srcs[i])
    ensures Executor.PlanCopy(srcs).Sources? ==>
      forall i :: 0 <= i < |srcs| ==> Paths.Locate([], SourcePaths(srcs)[i]) == Paths.Locate(ARCHIVE, srcs[i])
                                      && ARCHIVE <= Paths.Locate(ARCHIVE, srcs[i])
  {
    hide Accepted, Shellescape, Paths.Locate, Paths.Clean;
    PlanOfSources(srcs);
    if Executor.PlanCopy(srcs).Sources? {
      forall i | 0 <= i < |srcs|
        ensures Paths.Locate([], SourcePaths(srcs)[i]) == Paths.Locate(ARCHIVE, srcs[i])
        ensures ARCHIVE <= Paths.Locate(ARCHIVE, srcs[i])
      {
        AcceptedIsInArchive(srcs[i]);
      }
    }
  }

  lemma {:induction false} PlanOfSources(srcs: seq<string>)
    ensures var plan := Executor.PlanCopy(srcs);
            && (plan.Sources? <==> forall i :: 0 <= i < |srcs| ==> Accepted(srcs[i]))
            && (plan.Sources? ==> plan.words == Escaped(SourcePaths(srcs)))
            && (plan.Reject? ==> exists i :: FirstRefused(srcs, i) && plan.src == srcs[i])
  {
    hide Executor.Escapes, Shellescape, Accepted, Paths.Clean;
    if srcs != [] {
      PlanOfSources(srcs[1..]);
      EscapesIff(srcs[0]);
      assert srcs == [srcs[0]] + srcs[1..];
      assert SourcePaths(srcs) == [SourcePaths(srcs)[0]] + SourcePaths(srcs[1..]);
      assert Escaped(SourcePaths(srcs)) == [Shellescape(SourcePaths(srcs)[0])] + Escaped(SourcePaths(srcs[1..]));
      var plan := Executor.PlanCopy(srcs);
      if plan.Reject? && Accepted(srcs[0]) {
        var i :| FirstRefused(srcs[1..], i) && plan.src == srcs[1..][i];
        assert forall j :: 0 < j < i + 1 ==> srcs[j] == srcs[1..][j - 1];
        assert FirstRefused(srcs, i + 1) && plan.src == srcs[i + 1];
      } else if plan.Reject? {
        assert FirstRefused(srcs, 0);
      }
    }
  }

  function Words(paths: seq<string>): seq<Token> {
    if paths == [] then [] else [Exact(paths[0])] + Words(paths[1..])
  }

  lemma {:induction false} RunJoined(l: Lexer, paths: seq<string>)
    requires Reading(l) && l.word.None?
    ensures Run(l, Executor.Joined(Escaped(paths)) + " ") == l.(out := l.out + Words(paths))
    decreases |paths|
  {
    hide Run, Step, Shellescape, Quoted;
    if paths == [] {
      assert "" + " " == " ";
      RunBlank(l);
      assert l.out + [] == l.out;
    } else {
      RunQuotedWord(l, paths[0]);
      assert Escaped(paths)[1..] == Escaped(paths[1..]);
      if |paths| == 1 {
        assert Words(paths[1..]) == [];
      } else {
        var first, rest := Shellescape(paths[0]) + " ", Executor.Joined(Escaped(paths[1..])) + " ";
        assert Executor.Joined(Escaped(paths)) + " " == first + rest;
        RunAppend(l, first, rest);
        RunJoined(Emit(l, Exact(paths[0])), paths[1..]);
      }
    }
  }

  function OwnerWord(owner: string): Token {
    Word(Quoted(owner, Literal) + Quoted(":", Bare) + Quoted(owner, Literal))
  }

  lemma RunOwner(l: Lexer, owner: string)
    requires Reading(l) && l.word.None?
    ensures Run(l, Shellescape(owner) + ":" + Shellescape(owner) + " ") == Emit(l, OwnerWord(owner))
  {
    hide Run, Step, Shellescape, Quoted;
    var q := Shellescape(owner);
    var l1 := l.(word := Some(Quoted(owner, Literal)));
    assert WithWord(l, Quoted(owner, Literal)) == l1 by {
      assert [] + Quoted(owner, Literal) == Quoted(owner, Literal);
    }
    RunShellescape(l, owner);
    RunAppend(l, q, ":");
    RunOrdinary(l1, ":");
    var l2 := WithWord(l1, Quoted(":", Bare));
    RunAppend(l, q + ":", q);
    RunShellescape(l2, owner);
    var l3 := WithWord(l2, Quoted(owner, Literal));
    RunAppend(l, q + ":" + q, " ");
    RunBlank(l3);
  }

  function CopyTokens(paths: seq<string>, target: string, owner: string): seq<Token> {
    [Plain("cp"), Plain("-r")] + Words(paths)
    + [Exact(target), Operator("&&"), Plain("chown"), Plain("-R"), OwnerWord(owner), Exact(target)]
  }

  function Destination(dst: string, ctx: Context): string {
    if dst != "" && dst[0] != '/' && ctx.workDir != "" then ctx.workDir + "/" + dst else dst
  }

  predicate PlainWord(w: string) {
    Ordinary(w) && w != "" && w[0] != '#'
  }

  lemma TwoWords(l: Lexer, a: string, b: string)
    requires Reading(l) && l.word.None? && PlainWord(a) && PlainWord(b)
    ensures Run(l, (a + " ") + (b + " ")) == Emit(Emit(l, Plain(a)), Plain(b))
  {
    RunWord(l, a);
    RunWord(Emit(l, Plain(a)), b);
    hide Run;
    RunAppend(l, a + " ", b + " ");
  }

  lemma RunCp(l: Lexer)
    requires Reading(l) && l.word.None?
    ensures Run(l, "cp -r ") == Emit(Emit(l, Plain("cp")), Plain("-r"))
  {
    hide Run, Step, Quoted, Plain;
    TwoWords(l, "cp", "-r");
    assert ("cp" + " ") + ("-r" + " ") == "cp -r ";
  }

  lemma RunChownWords(l: Lexer)
    requires Reading(l) && l.word.None?
    ensures Run(l, "chown -R ") == Emit(Emit(l, Plain("chown")), Plain("-R"))
  {
    hide Run, Step, Quoted, Plain;
    TwoWords(l, "chown", "-R");
    assert ("chown" + " ") + ("-R" + " ") == "chown -R ";
  }

  lemma RunAndAnd(l: Lexer)
    requires Reading(l) && l.word.None?
    ensures Run(l, "&& ") == Emit(l, Operator("&&"))
  {
    hide Run, Step;
    RunDoubled(l, '&');
    assert ['&', '&'] + " " == "&& " && ['&', '&'] == "&&";
  }

  lemma RunChown(l: Lexer)
    requires Reading(l) && l.word.None?
    ensures Run(l, "&& chown -R ") == Emit(Emit(Emit(l, Operator("&&")), Plain("chown")), Plain("-R"))
  {
    hide Run, Step, Quoted, Plain, Emit;
    AndChown(l, "&& ", "chown -R ");
    assert "&& " + "chown -R " == "&& chown -R ";
  }

  lemma AndChown(l: Lexer, and: string, words: string)
    requires Reading(l) && l.word.None?
    requires and == "&& " && words == "chown -R "
    ensures Run(l, and + words) == Emit(Emit(Emit(l, Operator("&&")), Plain("chown")), Plain("-R"))
  {
    RunAndAnd(l);
    RunChownWords(Emit(l, Operator("&&")));
    hide Run, Quoted;
    RunAppend(l, and, words);
  }

  /** Quoted text at the end of a script is its last word. */
  lemma FinishExact(l: Lexer, s: string)
    requires Reading(l) && l.word.None?
    ensures Finish(Run(l, Shellescape(s))) == Tokens(l.out + [Exact(s)])
  {
    hide Run, Step, Shellescape, Quoted;
    RunShellescape(l, s);
    assert [] + Quoted(s, Literal) == Quoted(s, Literal);
  }

  lemma CopyScriptSplit(words: seq<string>, dst: string, ctx: Context)
    ensures var q := Shellescape(Destination(dst, ctx));
            var o := Shellescape(if ctx.user != "" then ctx.user else "root");
            Executor.CopyScript(words, dst, ctx)
            == "cp -r " + ((Executor.Joined(words) + " ") + ((q + " ") + ("&& chown -R " + ((o + ":" + o + " ") + q))))
  {
    var q := Shellescape(Destination(dst, ctx));
    var o := Shellescape(if ctx.user != "" then ctx.user else "root");
    var j := Executor.Joined(words);
    assert Executor.CopyScript(words, dst, ctx) == "cp -r " + j + " " + q + " && chown -R " + o + ":" + o + " " + q;
    hide *;
    assert " && chown -R " == " " + "&& chown -R ";
    Regrouped(j, q, o);
  }

  lemma Regrouped(j: string, q: string, o: string)
    ensures "cp -r " + j + " " + q + (" " + "&& chown -R ") + o + ":" + o + " " + q
         == "cp -r " + ((j + " ") + ((q + " ") + ("&& chown -R " + ((o + ":" + o + " ") + q))))
  {
    var tail := (o + ":" + o + " ") + q;
    assert "&& chown -R " + tail == "&& chown -R " + o + ":" + o + " " + q;
    assert (q + " ") + ("&& chown -R " + tail) == q + (" " + "&& chown -R ") + o + ":" + o + " " + q;
  }

  /** The COPY script is cp with each path as one exact word, then chown of the destination to the owner; nothing in a
      path, a destination or a user name can act. */
  lemma CopyScriptMeaning(paths: seq<string>, dst: string, ctx: Context)
    ensures Lex(Executor.CopyScript(Escaped(paths), dst, ctx))
         == Tokens(CopyTokens(paths, Destination(dst, ctx), if ctx.user != "" then ctx.user else "root"))
  {
    var target, owner := Destination(dst, ctx), if ctx.user != "" then ctx.user else "root";
    CopyScriptSplit(Escaped(paths), dst, ctx);
    CopyRun(paths, target, owner);
  }

  lemma CopyRun(paths: seq<string>, target: string, owner: string)
    ensures var q, o := Shellescape(target), Shellescape(owner);
            Lex("cp -r " + ((Executor.Joined(Escaped(paths)) + " ")
              + ((q + " ") + ("&& chown -R " + ((o + ":" + o + " ") + q)))))
            == Tokens(CopyTokens(paths, target, owner))
  {
    hide Run, Step, Shellescape, Quoted, Escaped, Executor.Joined, Plain, Exact, OwnerWord, Words;
    var q, o, j := Shellescape(target), Shellescape(owner), Executor.Joined(Escaped(paths)) + " ";
    var owners := o + ":" + o + " ";
    var l1 := Emit(Emit(START, Plain("cp")), Plain("-r"));
    var l2 := l1.(out := l1.out + Words(paths));
    var l3 := Emit(l2, Exact(target));
    var l4 := Emit(Emit(Emit(l3, Operator("&&")), Plain("chown")), Plain("-R"));
    var l5 := Emit(l4, OwnerWord(owner));
    RunCp(START);
    RunAppend(START, "cp -r ", j + ((q + " ") + ("&& chown -R " + (owners + q))));
    RunJoined(l1, paths);
    RunAppend(l1, j, (q + " ") + ("&& chown -R " + (owners + q)));
    QuotedIsExact(l2, target);
    RunAppend(l2, q + " ", "&& chown -R " + (owners + q));
    RunChown(l3);
    RunAppend(l3, "&& chown -R ", owners + q);
    RunOwner(l4, owner);
    RunAppend(l4, owners, q);
    FinishExact(l5, target);
    assert l5.out + [Exact(target)] == CopyTokens(paths, target, owner);
  }

  lemma QuotedIsExact(l: Lexer, s: string)
    requires Reading(l) && l.word.None?
    ensures Run(l, Shellescape(s) + " ") == Emit(l, Exact(s))
  {
    RunQuotedWord(l, s);
  }

  // ---- USER ----

  lemma {:induction false} NothingToEscape(s: string)
    requires '\'' !in s
    ensures EscapeQuotes(s) == s
  {
    if s != "" {
      assert s == [s[0]] + s[1..];
      assert s[0] in s;
      NothingToEscape(s[1..]);
    }
  }

  /** Check for the user; otherwise create it and, if that works, append its line to the sudoers file. */
  function UserTokens(name: string): seq<Token> {
    [Plain("id"), Exact(name)] + QUIET_TOKENS + [Operator("||"), Operator("(")]
    + AddTokens(name) + [Operator("&&"), Plain("printf"), Exact("%s ALL=(ALL) NOPASSWD:ALL\\n"), Exact(name)]
    + [Operator(">>"), Plain("/etc/sudoers"), Operator(")")]
  }

  function AddTokens(name: string): seq<Token> {
    [Plain("adduser"), Plain("--disabled-password"), Plain("--gecos"), Exact(""), Plain("--shell"),
      Plain("/bin/bash"), Exact(name)]
  }

  lemma RunAdd(l: Lexer, name: string)
    requires Reading(l) && l.word.None?
    ensures Run(l.(op := "("), Executor.ADD_USER + (Shellescape(name) + " "))
            == l.(out := l.out + [Operator("(")] + AddTokens(name))
  {
    hide Run, Step, Quoted, Plain, Exact, Shellescape;
    var l0 := l.(op := "(");
    var l1 := Emit(Emit(l, Operator("(")), Plain("adduser"));
    AfterOpen(l, "adduser");
    var l2 := Emit(Emit(l1, Plain("--disabled-password")), Plain("--gecos"));
    TwoWords(l1, "--disabled-password", "--gecos");
    var l3 := Emit(l2, Exact(""));
    EmptyWord(l2);
    var l4 := Emit(Emit(l3, Plain("--shell")), Plain("/bin/bash"));
    TwoWords(l3, "--shell", "/bin/bash");
    QuotedIsExact(l4, name);
    var a, b := "adduser" + " ", ("--disabled-password" + " ") + ("--gecos" + " ");
    var c, d := "'' ", ("--shell" + " ") + ("/bin/bash" + " ");
    assert a == "adduser " && "--disabled-password" + " " == "--disabled-password " && "--gecos" + " " == "--gecos ";
    assert "--shell" + " " == "--shell " && "/bin/bash" + " " == "/bin/bash ";
    RunAppend(l0, a, b);
    RunAppend(l0, a + b, c);
    RunAppend(l0, a + b + c, d);
    RunAppend(l0, a + b + c + d, Shellescape(name) + " ");
  }

  lemma AfterOpen(l: Lexer, w: string)
    requires Reading(l) && l.word.None? && PlainWord(w)
    ensures Run(l.(op := "("), w + " ") == Emit(Emit(l, Operator("(")), Plain(w))
  {
    RunAfterOperatorWord(l, "(", w);
  }

  lemma EmptyWord(l: Lexer)
    requires Reading(l) && l.word.None?
    ensures Run(l, "'' ") == Emit(l, Exact(""))
  {
    RunQuotedWord(l, "");
    assert Shellescape("") == "''";
    assert "''" + " " == "'' ";
  }

  lemma LiteralWord(l: Lexer, s: string)
    requires Reading(l) && l.word.None? && '\'' !in s
    ensures Run(l, "'" + s + "' ") == Emit(l, Exact(s))
  {
    NothingToEscape(s);
    RunQuotedWord(l, s);
    hide Run;
    assert "'" + " " == "' ";
    assert "'" + s + "'" + " " == "'" + s + "' ";
  }

  lemma RunPrintf(l: Lexer, name: string)
    requires Reading(l) && l.word.None?
    ensures Run(l, Executor.PRINT_LINE + (Shellescape(name) + " "))
         == l.(out := l.out + [Operator("&&"), Plain("printf"), Exact(Executor.SUDOERS_LINE), Exact(name)])
  {
    hide Run, Step, Quoted, Exact, Shellescape;
    var and, word, format, q := ['&', '&'] + " ", "printf" + " ", "'" + Executor.SUDOERS_LINE + "' ",
      Shellescape(name) + " ";
    assert and == "&& " && word == "printf ";
    RunDoubled(l, '&');
    var l1 := Emit(l, Operator("&&"));
    RunWord(l1, "printf");
    var l2 := Emit(l1, Plain("printf"));
    LiteralWord(l2, Executor.SUDOERS_LINE);
    var l3 := Emit(l2, Exact(Executor.SUDOERS_LINE));
    QuotedIsExact(l3, name);
    RunAppend(l, and, word);
    RunAppend(l, and + word, format);
    RunAppend(l, and + word + format, q);
  }

  lemma RunId(name: string)
    ensures Run(START, "id " + (Shellescape(name) + " " + QUIET) + "|| (")
         == START.(op := "(", out := [Plain("id"), Exact(name)] + QUIET_TOKENS + [Operator("||")])
  {
    hide Run, Step, Quoted, Exact, Shellescape;
    var id, q, or := "id" + " ", Shellescape(name) + " ", ['|', '|'] + " ";
    assert id == "id " && or == "|| " && or + "(" == "|| (";
    RunWord(START, "id");
    var l1 := Emit(START, Plain("id"));
    QuotedIsExact(l1, name);
    var l2 := Emit(l1, Exact(name));
    RunQuiet(l2);
    var l3 := l2.(out := l2.out + QUIET_TOKENS);
    RunDoubled(l3, '|');
    var l4 := Emit(l3, Operator("||"));
    RunOperator(l4, '(');
    RunAppend(l1, q, QUIET);
    RunAppend(START, id, q + QUIET);
    RunAppend(START, id + (q + QUIET), "|| (");
    RunAppend(l3, or, "(");
    assert l4.out == [Plain("id"), Exact(name)] + QUIET_TOKENS + [Operator("||")];
  }

  lemma RunSudoers(l: Lexer)
    requires Reading(l) && l.word.None?
    ensures Finish(Run(l, Executor.APPEND_LINE))
            == Tokens(l.out + [Operator(">>"), Plain("/etc/sudoers"), Operator(")")])
  {
    hide Run, Step, Plain;
    var redirect, path := ['>', '>'] + " ", "/etc/sudoers";
    assert redirect == ">> ";
    RunDoubled(l, '>');
    LastInParentheses(Emit(l, Operator(">>")), path);
    RunAppend(l, redirect, path + ")");
    assert redirect + (path + ")") == redirect + path + ")";
  }

  lemma LastInParentheses(l: Lexer, w: string)
    requires Reading(l) && l.word.None? && PlainWord(w)
    ensures Finish(Run(l, w + ")")) == Tokens(l.out + [Plain(w), Operator(")")])
  {
    hide Run, Step, Quoted;
    RunOrdinary(l, w);
    var l1 := WithWord(l, Quoted(w, Bare));
    assert l1.word == Some(Quoted(w, Bare)) by { assert [] + Quoted(w, Bare) == Quoted(w, Bare); }
    RunOperator(l1, ')');
    RunAppend(l, w, ")");
  }

  /** The USER script is the intended list of commands, with the name as one exact word everywhere. */
  lemma UserScriptMeaning(name: string)
    ensures Lex(Executor.UserScript(name)) == Tokens(UserTokens(name))
  {
    hide Run, Step, Quoted, Plain, Exact, Shellescape;
    var q := Shellescape(name) + " ";
    var head := "id " + (q + QUIET) + "|| (";
    RunId(name);
    var l1 := START.(out := [Plain("id"), Exact(name)] + QUIET_TOKENS + [Operator("||")]);
    var tail := (Executor.PRINT_LINE + q) + Executor.APPEND_LINE;
    RunAppend(START, head, (Executor.ADD_USER + q) + tail);
    RunAdd(l1, name);
    var l2 := l1.(out := l1.out + [Operator("(")] + AddTokens(name));
    RunAppend(l1.(op := "("), Executor.ADD_USER + q, tail);
    RunPrintf(l2, name);
    var l3 := l2.(out := l2.out + [Operator("&&"), Plain("printf"), Exact(Executor.SUDOERS_LINE), Exact(name)]);
    RunAppend(l2, Executor.PRINT_LINE + q, Executor.APPEND_LINE);
    RunSudoers(l3);
    assert l3.out + [Operator(">>"), Plain("/etc/sudoers"), Operator(")")] == UserTokens(name);
  }

  // ---- The text each step sends ----

  lemma WorkdirScriptMeaning(path: string)
    ensures Lex("mkdir -p " + Shellescape(path)) == Tokens([Plain("mkdir"), Plain("-p"), Exact(path)])
  {
    hide Run, Step, Quoted, Plain, Exact, Shellescape;
    var l1 := Emit(START, Plain("mkdir"));
    var l2 := Emit(l1, Plain("-p"));
    assert "mkdir " + "-p " == "mkdir -p " && "mkdir" + " " == "mkdir " && "-p" + " " == "-p ";
    PlainIsWord("mkdir");
    PlainIsWord("-p");
    RunWord(START, "mkdir");
    RunWord(l1, "-p");
    RunAppend(START, "mkdir ", "-p ");
    RunAppend(START, "mkdir -p ", Shellescape(path));
    FinishExact(l2, path);
    assert l2.out + [Exact(path)] == [Plain("mkdir"), Plain("-p"), Exact(path)];
  }

  lemma PlainIsWord(w: string)
    ensures Plain(w) == Word(Quoted(w, Bare))
  {
  }

  /** What the shell makes of the one request of a WORKDIR, USER or COPY step; RUN and START send the commands whose
      meaning is `WrappedMeaning` and `StartedMeaning`. */
  lemma RequestMeaning(cfg: Executor.Config, st: Executor.Step, ctx: Context)
    requires Executor.Sends(cfg, st, ctx) != []
    ensures var cmd := Executor.Sends(cfg, st, ctx)[0].cmd;
            match st
            case WORKDIR(_, path) => Lex(cmd) == Tokens([Plain("mkdir"), Plain("-p"), Exact(path)])
            case USER(_, name) => Lex(cmd) == Tokens(UserTokens(name))
            case COPY(_, srcs, dst) =>
              Lex(cmd) == Tokens(CopyTokens(SourcePaths(srcs), Destination(dst, ctx),
                                            if ctx.user != "" then ctx.user else "root"))
            case RUN(_, shell, _) => cmd == Wrapped(ctx, shell)
            case START(_, shell) => cmd == Started(ctx, shell)
            case ENV(_, _, _) => false
  {
    hide Lex, Wrapped, Started, Shellescape, UserTokens, CopyTokens, Plain, Exact, SourcePaths, Accepted,
      Executor.CopyScript, Executor.UserScript, Executor.PlanCopy;
    match st {
      case WORKDIR(_, path) => WorkdirScriptMeaning(path);
      case USER(_, name) => UserScriptMeaning(name);
      case COPY(_, srcs, dst) =>
        PlanOfSources(srcs);
        CopyScriptMeaning(SourcePaths(srcs), dst, ctx);
      case _ =>
    }
  }
}
