/** Variable expansion in ENV values: `$$`, `${name}` and `$name`. */
module Expand {

  predicate NameChar(c: char) {
    'a' <= c <= 'z' || 'A' <= c <= 'Z' || '0' <= c <= '9' || c == '_'
  }

  predicate Name(s: string) {
    forall i :: 0 <= i < |s| ==> NameChar(s[i])
  }

  /** What one step of the scan consumes. */
  datatype Piece = Char(c: char) | Dollar | Braced(name: string) | Named(name: string)

  function Text(p: Piece): string {
    match p
    case Char(c) => [c]
    case Dollar => "$$"
    case Braced(name) => "${" + name + "}"
    case Named(name) => "$" + name
  }

  function Lookup(vars: map<string, string>, name: string): string {
    if name in vars then vars[name] else ""
  }

  function Value(p: Piece, vars: map<string, string>): string {
    match p
    case Char(c) => [c]
    case Dollar => "$"
    case Braced(name) => Lookup(vars, name)
    case Named(name) => Lookup(vars, name)
  }

  /** Length of the longest prefix made of name characters. */
  function NameLength(s: string): (n: nat)
    ensures n <= |s| && Name(s[..n]) && (n < |s| ==> !NameChar(s[n]))
  {
    if s == "" || !NameChar(s[0]) then 0 else 1 + NameLength(s[1..])
  }

  /** What a dollar and an opening brace at the head of `s` make. */
  function FirstBraced(s: string): (p: Piece)
    requires |s| >= 2 && s[0] == '$' && s[1] == '{'
    ensures Text(p) <= s
  {
    var n := NameLength(s[2..]);
    if 2 + n < |s| && s[2 + n] == '}' then
      assert "${" + s[2..2 + n] + "}" == s[..3 + n];
      Braced(s[2..2 + n])
    else Char('$')
  }

  function FirstNamed(s: string): (p: Piece)
    requires |s| >= 2 && s[0] == '$'
    ensures Text(p) <= s
  {
    var n := NameLength(s[1..]);
    if n > 0 then
      assert "$" + s[1..1 + n] == s[..1 + n];
      Named(s[1..1 + n])
    else Char('$')
  }

  function First(s: string): (p: Piece)
    requires s != ""
    ensures Text(p) <= s
  {
    if |s| == 1 || s[0] != '$' then Char(s[0])
    else if s[1] == '$' then Dollar
    else if s[1] == '{' then FirstBraced(s)
    else FirstNamed(s)
  }

  function Rest(s: string): (r: string)
    requires s != ""
    ensures |r| < |s|
  {
    s[|Text(First(s))|..]
  }

  function Expand(s: string, vars: map<string, string>): string
    decreases |s|
  {
    if s == "" then "" else Value(First(s), vars) + Expand(Rest(s), vars)
  }

  // ---- The scan is the pattern's ----

  ghost predicate InBraces(t: string) {
    |t| >= 3 && t[0] == '$' && t[1] == '{' && t[|t| - 1] == '}' && Name(t[2..|t| - 1])
  }

  ghost predicate AfterDollar(t: string) {
    |t| >= 2 && t[0] == '$' && Name(t[1..])
  }

  /** The language of the pattern: two dollars, or a dollar and a braced name, or a dollar and a non-empty name. */
  ghost predicate Matches(t: string) {
    t == "$$" || InBraces(t) || AfterDollar(t)
  }

  /** `p` is what matching at the head of `s` gives: the longest match, or one character where nothing matches. */
  ghost predicate Leftmost(s: string, p: Piece) {
    && Text(p) <= s
    && ((p.Braced? || p.Named?) ==> Name(p.name))
    && (if p.Char? then forall n :: 0 <= n <= |s| ==> !Matches(s[..n])
        else Matches(Text(p)) && forall n :: |Text(p)| < n <= |s| ==> !Matches(s[..n]))
  }

  ghost predicate Scan(s: string, pieces: seq<Piece>)
    decreases |pieces|
  {
    if pieces == [] then s == ""
    else Leftmost(s, pieces[0]) && Scan(s[|Text(pieces[0])|..], pieces[1..])
  }

  function Pieces(s: string): seq<Piece>
    decreases |s|
  {
    if s == "" then [] else [First(s)] + Pieces(Rest(s))
  }

  function Values(pieces: seq<Piece>, vars: map<string, string>): string {
    if pieces == [] then "" else Value(pieces[0], vars) + Values(pieces[1..], vars)
  }

  lemma {:induction false} NameLengthAt(s: string, n: nat)
    requires n <= |s| && Name(s[..n])
    ensures n <= NameLength(s)
    ensures n < |s| && !NameChar(s[n]) ==> NameLength(s) == n
  {
    if n > 0 {
      assert NameChar(s[..n][0]);
      assert s[1..][..n - 1] == s[..n][1..];
      NameLengthAt(s[1..], n - 1);
    }
  }

  lemma BracesClose(s: string, n: nat)
    requires n <= |s| && InBraces(s[..n])
    ensures NameLength(s[2..]) == n - 3
  {
    assert s[2..][..n - 3] == s[..n][2..n - 1];
    NameLengthAt(s[2..], n - 3);
  }

  lemma NameExtent(s: string, n: nat)
    requires n <= |s| && AfterDollar(s[..n])
    ensures n <= 1 + NameLength(s[1..])
  {
    assert s[1..][..n - 1] == s[..n][1..];
    NameLengthAt(s[1..], n - 1);
  }

  lemma FirstMatches(s: string)
    requires s != "" && !First(s).Char?
    ensures Matches(Text(First(s)))
    ensures (First(s).Braced? || First(s).Named?) ==> Name(First(s).name)
  {
    var p := First(s);
    if p.Braced? {
      assert p.name == s[2..][..|p.name|];
      assert Text(p)[2..|Text(p)| - 1] == p.name;
    } else if p.Named? {
      assert p.name == s[1..][..|p.name|];
      assert Text(p)[1..] == p.name;
    }
  }

  lemma FirstIsLongest(s: string, n: nat)
    requires s != "" && n <= |s| && Matches(s[..n])
    ensures !First(s).Char? && n <= |Text(First(s))|
  {
    assert s[..n][0] == s[0] && s[..n][1] == s[1];
    if InBraces(s[..n]) { BracesClose(s, n); } else if AfterDollar(s[..n]) { NameExtent(s, n); }
  }

  lemma FirstIsLeftmost(s: string)
    requires s != ""
    ensures Leftmost(s, First(s))
  {
    if !First(s).Char? { FirstMatches(s); }
    forall n | 0 <= n <= |s| && Matches(s[..n]) ensures !First(s).Char? && n <= |Text(First(s))| {
      FirstIsLongest(s, n);
    }
  }

  lemma TextInjective(p: Piece, q: Piece)
    requires Text(p) == Text(q) && !p.Char? && !q.Char?
    requires (p.Braced? || p.Named?) ==> Name(p.name)
    requires (q.Braced? || q.Named?) ==> Name(q.name)
    ensures p == q || !Matches(Text(p))
  {
    var t := Text(p);
    assert p.Braced? ==> t[2..|t| - 1] == p.name && t[1] == '{';
    assert q.Braced? ==> t[2..|t| - 1] == q.name && t[1] == '{';
    assert p.Named? ==> t[1..] == p.name && (p.name != "" ==> NameChar(t[1]));
    assert q.Named? ==> t[1..] == q.name && (q.name != "" ==> NameChar(t[1]));
  }

  lemma LeftmostUnique(s: string, p: Piece, q: Piece)
    requires Leftmost(s, p) && Leftmost(s, q)
    ensures p == q
  {
    assert s[..|Text(p)|] == Text(p) && s[..|Text(q)|] == Text(q);
    if !p.Char? && !q.Char? { TextInjective(p, q); }
  }

  /** The scan is exactly the pattern's leftmost, greedy, non-overlapping matching, and there is only one. */
  lemma {:induction false} ScanIffPieces(s: string, pieces: seq<Piece>)
    ensures Scan(s, pieces) <==> pieces == Pieces(s)
    decreases |s|
  {
    if s == "" {
      if pieces != [] { assert |Text(pieces[0])| > 0; }
    } else {
      FirstIsLeftmost(s);
      ScanIffPieces(Rest(s), if pieces == [] then [] else pieces[1..]);
      if pieces != [] {
        if Leftmost(s, pieces[0]) { LeftmostUnique(s, pieces[0], First(s)); }
        assert pieces == [pieces[0]] + pieces[1..];
        assert Pieces(s)[1..] == Pieces(Rest(s));
      }
    }
  }

  lemma {:induction false} ExpandIsPiecewise(s: string, vars: map<string, string>)
    ensures Expand(s, vars) == Values(Pieces(s), vars)
    decreases |s|
  {
    if s != "" {
      ExpandIsPiecewise(Rest(s), vars);
      assert Pieces(s)[1..] == Pieces(Rest(s));
    }
  }

  // ---- Substituted values are never scanned again ----

  function Join(parts: seq<string>, v: string): string
    requires parts != []
  {
    if |parts| == 1 then parts[0] else parts[0] + v + Join(parts[1..], v)
  }

  predicate Refers(p: Piece, x: string) {
    (p.Braced? || p.Named?) && p.name == x
  }

  /** The text around the places where `x` is substituted; it does not look at the value of `x`. */
  function Around(s: string, x: string, vars: map<string, string>): (parts: seq<string>)
    ensures parts != []
    decreases |s|
  {
    if s == "" then [""]
    else
      var parts := Around(Rest(s), x, vars);
      if Refers(First(s), x) then [""] + parts
      else [Value(First(s), vars) + parts[0]] + parts[1..]
  }

  lemma {:induction false} AroundIgnores(s: string, x: string, vars: map<string, string>, v: string)
    ensures Around(s, x, vars[x := v]) == Around(s, x, vars)
    decreases |s|
  {
    hide First, Rest, Text, NameLength;
    if s != "" { AroundIgnores(Rest(s), x, vars, v); }
  }

  lemma ExpandStep(s: string, vars: map<string, string>)
    requires s != ""
    ensures Expand(s, vars) == Value(First(s), vars) + Expand(Rest(s), vars)
  {
  }

  lemma JoinAfter(head: string, parts: seq<string>, v: string)
    requires parts != []
    ensures Join([head + parts[0]] + parts[1..], v) == head + Join(parts, v)
  {
    var all := [head + parts[0]] + parts[1..];
    assert all[1..] == parts[1..];
    if |parts| > 1 {
      assert head + (parts[0] + v + Join(parts[1..], v)) == head + parts[0] + v + Join(parts[1..], v);
    }
  }

  lemma JoinGap(parts: seq<string>, v: string)
    requires parts != []
    ensures Join([""] + parts, v) == v + Join(parts, v)
  {
    assert ([""] + parts)[1..] == parts;
  }

  /** Expansion puts the value of `x`, verbatim, into gaps that do not depend on that value. */
  lemma {:induction false} ValuesAreVerbatim(s: string, x: string, vars: map<string, string>, v: string)
    ensures Expand(s, vars[x := v]) == Join(Around(s, x, vars), v)
    decreases |s|
  {
    if s != "" {
      hide First, Rest, Text, NameLength, Join, Expand;
      var parts := Around(Rest(s), x, vars);
      ValuesAreVerbatim(Rest(s), x, vars, v);
      ExpandStep(s, vars[x := v]);
      JoinGap(parts, v);
      JoinAfter(Value(First(s), vars), parts, v);
    }
  }

  function Names(s: string): set<string>
    decreases |s|
  {
    if s == "" then {}
    else (if First(s).Braced? || First(s).Named? then {First(s).name} else {}) + Names(Rest(s))
  }

  lemma {:induction false} GapPerReference(s: string, x: string, vars: map<string, string>)
    ensures |Around(s, x, vars)| == 1 <==> x !in Names(s)
    decreases |s|
  {
    if s != "" { GapPerReference(Rest(s), x, vars); }
  }

  lemma {:induction false} JoinLength(parts: seq<string>, v: string)
    requires parts != []
    ensures |Join(parts, v)| >= |Join(parts, "")|
    ensures |parts| > 1 && v != "" ==> |Join(parts, v)| > |Join(parts, "")|
  {
    if |parts| > 1 { JoinLength(parts[1..], v); }
  }

  function ExpandWith(s: string, vars: map<string, string>, x: string, v: string): string {
    Expand(s, vars[x := v])
  }

  /** The result depends on a variable exactly when the text names it. */
  lemma DependsIffNamed(s: string, x: string, vars: map<string, string>)
    ensures (forall v, w :: ExpandWith(s, vars, x, v) == ExpandWith(s, vars, x, w)) <==> x !in Names(s)
  {
    GapPerReference(s, x, vars);
    if x in Names(s) {
      ValuesAreVerbatim(s, x, vars, "");
      ValuesAreVerbatim(s, x, vars, "x");
      JoinLength(Around(s, x, vars), "x");
      assert ExpandWith(s, vars, x, "") != ExpandWith(s, vars, x, "x");
    } else {
      forall v, w ensures ExpandWith(s, vars, x, v) == ExpandWith(s, vars, x, w) {
        ValuesAreVerbatim(s, x, vars, v);
        ValuesAreVerbatim(s, x, vars, w);
      }
    }
  }

  /** Two environments that agree on the named variables, an unset one counting as empty, expand alike. */
  lemma {:induction false} AgreeOnNames(s: string, a: map<string, string>, b: map<string, string>)
    requires forall x :: x in Names(s) ==> Lookup(a, x) == Lookup(b, x)
    ensures Expand(s, a) == Expand(s, b)
    decreases |s|
  {
    if s != "" {
      if First(s).Braced? || First(s).Named? { assert First(s).name in Names(s); }
      AgreeOnNames(Rest(s), a, b);
    }
  }

  // ---- Escaping ----

  function Doubled(s: string): string {
    if s == "" then "" else Escaped(s[0]) + Doubled(s[1..])
  }

  lemma FirstOf(c: char, t: string)
    ensures c != '$' ==> First([c] + t) == Char(c) && Rest([c] + t) == t
    ensures First("$$" + t) == Dollar && Rest("$$" + t) == t
  {
    assert ([c] + t)[1..] == t && ("$$" + t)[2..] == t;
  }

  function Escaped(c: char): string {
    if c == '$' then "$$" else [c]
  }

  lemma ExpandEscaped(c: char, t: string, vars: map<string, string>)
    ensures Expand(Escaped(c) + t, vars) == [c] + Expand(t, vars)
  {
    hide First, Rest, Text, NameLength, Expand;
    FirstOf(c, t);
    ExpandStep(Escaped(c) + t, vars);
  }

  /** Doubling every dollar sign protects any text, for any variables and whatever follows it. */
  lemma {:induction false} DoublingProtects(s: string, t: string, vars: map<string, string>)
    ensures Expand(Doubled(s) + t, vars) == s + Expand(t, vars)
  {
    hide Expand, Escaped;
    if s == "" {
      assert Doubled(s) + t == t;
    } else {
      assert Doubled(s) + t == Escaped(s[0]) + (Doubled(s[1..]) + t);
      ExpandEscaped(s[0], Doubled(s[1..]) + t, vars);
      DoublingProtects(s[1..], t, vars);
      assert [s[0]] + (s[1..] + Expand(t, vars)) == s + Expand(t, vars);
    }
  }

  lemma DoubledExpandsBack(s: string, vars: map<string, string>)
    ensures Expand(Doubled(s), vars) == s
  {
    DoublingProtects(s, "", vars);
    assert Doubled(s) + "" == Doubled(s);
  }

  // ---- ENV steps ----

  datatype Assignment = Assignment(key: string, text: string)

  function Assign(env: map<string, string>, steps: seq<Assignment>): map<string, string>
    decreases |steps|
  {
    if steps == [] then env
    else Assign(env[steps[0].key := Expand(steps[0].text, env)], steps[1..])
  }

  lemma {:induction false} AssignAppend(env: map<string, string>, a: seq<Assignment>, b: seq<Assignment>)
    ensures Assign(env, a + b) == Assign(Assign(env, a), b)
    decreases |a|
  {
    if a == [] {
      assert a + b == b;
    } else {
      assert (a + b)[1..] == a[1..] + b;
      AssignAppend(env[a[0].key := Expand(a[0].text, env)], a[1..], b);
    }
  }

  lemma {:induction false} UnassignedKept(env: map<string, string>, steps: seq<Assignment>, k: string)
    requires forall i :: 0 <= i < |steps| ==> steps[i].key != k
    ensures k in Assign(env, steps) <==> k in env
    ensures k in env ==> Assign(env, steps)[k] == env[k]
    decreases |steps|
  {
    if steps != [] { UnassignedKept(env[steps[0].key := Expand(steps[0].text, env)], steps[1..], k); }
  }

  /** Sequential assignment: a key ends up with its last text, expanded under the bindings made before that step. */
  lemma LastAssignmentWins(env: map<string, string>, steps: seq<Assignment>, j: nat)
    requires j < |steps| && forall i :: j < i < |steps| ==> steps[i].key != steps[j].key
    ensures steps[j].key in Assign(env, steps)
    ensures Assign(env, steps)[steps[j].key] == Expand(steps[j].text, Assign(env, steps[..j]))
  {
    var before := Assign(env, steps[..j]);
    AssignAppend(env, steps[..j], steps[j..]);
    assert steps == steps[..j] + steps[j..];
    assert steps[j..][1..] == steps[j + 1..];
    UnassignedKept(before[steps[j].key := Expand(steps[j].text, before)], steps[j + 1..], steps[j].key);
  }
}
