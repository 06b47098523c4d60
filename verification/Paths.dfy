/** Slash-separated paths: their lexical cleaning and the place they name. */
module Paths {

  // ---- Slashes ----

  predicate SlashFree(s: string) {
    '/' !in s
  }

  predicate Rooted(path: string) {
    path != "" && path[0] == '/'
  }

  /** Position of the first slash, or the length. */
  function Slash(s: string): (i: nat)
    ensures i <= |s| && SlashFree(s[..i]) && (i < |s| ==> s[i] == '/')
  {
    if s == "" || s[0] == '/' then 0 else 1 + Slash(s[1..])
  }

  lemma {:induction false} SlashAfter(a: string, rest: string)
    requires SlashFree(a)
    ensures Slash(a + "/" + rest) == |a| && Slash(a) == |a|
  {
    if a != "" {
      assert a[0] in a;
      assert forall c :: c in a[1..] ==> c in a;
      assert (a + "/" + rest)[1..] == a[1..] + "/" + rest;
      SlashAfter(a[1..], rest);
    }
  }

  /** The parts between slashes, empty ones included. */
  function Split(s: string): (parts: seq<string>)
    ensures parts != [] && forall i :: 0 <= i < |parts| ==> SlashFree(parts[i])
  {
    if Slash(s) == |s| then [s] else [s[..Slash(s)]] + Split(s[Slash(s) + 1..])
  }

  function Join(parts: seq<string>): string {
    if parts == [] then "" else if |parts| == 1 then parts[0] else parts[0] + "/" + Join(parts[1..])
  }

  lemma SplitOne(s: string)
    requires SlashFree(s)
    ensures Split(s) == [s]
  {
    SlashAfter(s, "");
  }

  lemma SplitHead(a: string, rest: string)
    requires SlashFree(a)
    ensures Split(a + "/" + rest) == [a] + Split(rest)
  {
    var s := a + "/" + rest;
    SlashAfter(a, rest);
    assert s[..|a|] == a && s[|a| + 1..] == rest;
  }

  lemma {:induction false} SplitOfJoin(parts: seq<string>)
    requires parts != [] && forall i :: 0 <= i < |parts| ==> SlashFree(parts[i])
    ensures Split(Join(parts)) == parts
  {
    hide Split;
    if |parts| == 1 {
      SplitOne(parts[0]);
    } else {
      SplitHead(parts[0], Join(parts[1..]));
      SplitOfJoin(parts[1..]);
    }
  }

  // ---- Cleaning ----

  /** A part that names an entry of a directory. */
  predicate Name(part: string) {
    SlashFree(part) && part != "" && part != "." && part != ".."
  }

  /** One more part on the stack of parts kept: two dots take back a name; at the root they are dropped. */
  function Push(rooted: bool, kept: seq<string>, part: string): seq<string> {
    if part == "" || part == "." then kept
    else if part != ".." then kept + [part]
    else if kept != [] && kept[|kept| - 1] != ".." then kept[..|kept| - 1]
    else if rooted then kept
    else kept + [".."]
  }

  function Resolve(rooted: bool, kept: seq<string>, parts: seq<string>): seq<string>
    decreases |parts|
  {
    if parts == [] then kept else Resolve(rooted, Push(rooted, kept, parts[0]), parts[1..])
  }

  function Kept(s: string): seq<string> {
    Resolve(Rooted(s), [], Split(s))
  }

  /** The shortest path equivalent to `s` by lexical processing alone. */
  function Clean(s: string): string {
    if Rooted(s) then "/" + Join(Kept(s)) else if Kept(s) == [] then "." else Join(Kept(s))
  }

  // ---- The place a path names, in a tree without links ----

  function Move(d: seq<string>, part: string): seq<string> {
    if part == "" || part == "." then d
    else if part != ".." then d + [part]
    else if d == [] then []
    else d[..|d| - 1]
  }

  function Walk(d: seq<string>, parts: seq<string>): seq<string>
    decreases |parts|
  {
    if parts == [] then d else Walk(Move(d, parts[0]), parts[1..])
  }

  /** Where `s` leads from directory `d`, as the names from the root down. */
  function Locate(d: seq<string>, s: string): seq<string> {
    Walk(if Rooted(s) then [] else d, Split(s))
  }

  lemma {:induction false} WalkAppend(d: seq<string>, a: seq<string>, b: seq<string>)
    ensures Walk(d, a + b) == Walk(Walk(d, a), b)
    decreases |a|
  {
    if a == [] {
      assert a + b == b;
    } else {
      assert (a + b)[1..] == a[1..] + b;
      WalkAppend(Move(d, a[0]), a[1..], b);
    }
  }

  lemma WalkOne(d: seq<string>, part: string)
    ensures Walk(d, [part]) == Move(d, part)
  {
    assert [part][1..] == [];
  }

  lemma {:induction false} WalkNames(d: seq<string>, names: seq<string>)
    requires forall i :: 0 <= i < |names| ==> Name(names[i])
    ensures Walk(d, names) == d + names
    decreases |names|
  {
    if names == [] {
      assert d + names == d;
    } else {
      WalkNames(d + [names[0]], names[1..]);
      assert (d + [names[0]]) + names[1..] == d + names;
    }
  }

  // ---- The shape of what is kept ----

  /** Names, after as many double dots as the path climbs; none of these if it is rooted. */
  ghost predicate Shape(rooted: bool, kept: seq<string>) {
    && (forall i :: 0 <= i < |kept| ==> Name(kept[i]) || (kept[i] == ".." && !rooted))
    && (forall i, j :: 0 <= i < j < |kept| && kept[j] == ".." ==> kept[i] == "..")
  }

  lemma PushKeepsShape(rooted: bool, kept: seq<string>, part: string)
    requires Shape(rooted, kept) && SlashFree(part)
    ensures Shape(rooted, Push(rooted, kept, part))
  {
    var after := Push(rooted, kept, part);
    if |after| > |kept| && part == ".." {
      assert forall i :: 0 <= i < |kept| ==> kept[i] == "..";
    }
  }

  lemma {:induction false} ResolveShape(rooted: bool, kept: seq<string>, parts: seq<string>)
    requires Shape(rooted, kept) && forall i :: 0 <= i < |parts| ==> SlashFree(parts[i])
    ensures Shape(rooted, Resolve(rooted, kept, parts))
    decreases |parts|
  {
    hide Shape, Push;
    if parts != [] {
      PushKeepsShape(rooted, kept, parts[0]);
      ResolveShape(rooted, Push(rooted, kept, parts[0]), parts[1..]);
    }
  }

  lemma KeptShape(s: string)
    ensures Shape(Rooted(s), Kept(s))
  {
    ResolveShape(Rooted(s), [], Split(s));
  }

  // ---- Cleaning keeps the place ----

  lemma PushMoves(rooted: bool, d: seq<string>, kept: seq<string>, part: string)
    requires Shape(rooted, kept) && (rooted ==> d == [])
    ensures Walk(d, Push(rooted, kept, part)) == Move(Walk(d, kept), part)
  {
    hide Walk;
    if part == ".." && kept != [] && kept[|kept| - 1] != ".." {
      var front, name := kept[..|kept| - 1], kept[|kept| - 1];
      assert kept == front + [name];
      WalkAppend(d, front, [name]);
      WalkOne(Walk(d, front), name);
    } else if part == ".." && rooted {
      assert kept == [];
      EmptyWalk(d);
    } else if part != "" && part != "." {
      WalkAppend(d, kept, [part]);
      WalkOne(Walk(d, kept), part);
    }
  }

  lemma EmptyWalk(d: seq<string>)
    ensures Walk(d, []) == d
  {
  }

  lemma {:induction false} ResolveKeepsPlace(rooted: bool, d: seq<string>, kept: seq<string>, parts: seq<string>)
    requires Shape(rooted, kept) && (rooted ==> d == [])
    requires forall i :: 0 <= i < |parts| ==> SlashFree(parts[i])
    ensures Walk(d, Resolve(rooted, kept, parts)) == Walk(Walk(d, kept), parts)
    decreases |parts|
  {
    hide Shape, Push, Move;
    if parts != [] {
      PushKeepsShape(rooted, kept, parts[0]);
      PushMoves(rooted, d, kept, parts[0]);
      ResolveKeepsPlace(rooted, d, Push(rooted, kept, parts[0]), parts[1..]);
    }
  }

  /** The parts of a cleaned path. */
  lemma SplitOfClean(s: string)
    ensures Rooted(Clean(s)) == Rooted(s)
    ensures Split(Clean(s)) == (if Rooted(s) then [""] else [])
                               + if Kept(s) != [] then Kept(s) else if Rooted(s) then [""] else ["."]
  {
    hide Split, Kept, Join;
    var kept := Kept(s);
    KeptShape(s);
    SplitOne("");
    SplitOne(".");
    if kept != [] {
      SplitOfJoin(kept);
      JoinHead(kept);
    } else {
      EmptyJoin();
    }
    if Rooted(s) {
      SplitHead("", Join(kept));
      assert "" + "/" + Join(kept) == "/" + Join(kept);
    }
  }

  lemma EmptyJoin()
    ensures Join([]) == ""
  {
  }

  lemma JoinHead(parts: seq<string>)
    requires parts != []
    ensures parts[0] <= Join(parts)
    ensures |parts[0]| < |Join(parts)| ==> Join(parts)[|parts[0]|] == '/'
  {
  }

  /** Cleaning keeps the place a path leads to, from every directory. */
  lemma CleanKeepsPlace(d: seq<string>, s: string)
    ensures Locate(d, Clean(s)) == Locate(d, s)
  {
    hide Split, Resolve, Clean;
    var from, kept := if Rooted(s) then [] else d, Kept(s);
    ResolveKeepsPlace(Rooted(s), from, [], Split(s));
    SplitOfClean(s);
    hide Walk;
    EmptyWalk(from);
    WalkOne(from, "");
    WalkOne(from, ".");
    WalkAppend(from, [""], if kept != [] then kept else [""]);
    assert [] + kept == kept && [] + ["."] == ["."];
  }

  // ---- Cleaning twice ----

  lemma PushShaped(rooted: bool, kept: seq<string>, part: string)
    requires Shape(rooted, kept + [part])
    ensures Push(rooted, kept, part) == kept + [part]
  {
    assert (kept + [part])[|kept|] == part;
    assert forall i :: 0 <= i < |kept| ==> (kept + [part])[i] == kept[i];
  }

  lemma {:induction false} ResolveShaped(rooted: bool, kept: seq<string>, parts: seq<string>)
    requires Shape(rooted, kept + parts)
    ensures Resolve(rooted, kept, parts) == kept + parts
    decreases |parts|
  {
    if parts == [] {
      assert kept + parts == kept;
    } else {
      var more := kept + [parts[0]];
      assert kept + parts == more + parts[1..];
      assert forall i :: 0 <= i < |more| ==> more[i] == (kept + parts)[i];
      PushShaped(rooted, kept, parts[0]);
      ResolveShaped(rooted, more, parts[1..]);
    }
  }

  lemma ResolveSkips(rooted: bool, part: string, parts: seq<string>)
    requires part == "" || part == "."
    ensures Resolve(rooted, [], [part] + parts) == Resolve(rooted, [], parts)
  {
    assert ([part] + parts)[1..] == parts;
  }

  /** A cleaned path is clean. */
  lemma CleanTwice(s: string)
    ensures Clean(Clean(s)) == Clean(s)
  {
    var rooted, kept := Rooted(s), Kept(s);
    KeptShape(s);
    SplitOfClean(s);
    assert [] + kept == kept && [] + ["."] == ["."] + [] == ["."] && [""] + [] == [""];
    ResolveShaped(rooted, [], kept);
    hide Split, Resolve, Join, Shape;
    ResolveSkips(rooted, "", kept);
    ResolveSkips(rooted, "", [""]);
    ResolveSkips(rooted, "", []);
    ResolveSkips(rooted, ".", []);
    EmptyResolve(rooted);
    assert Kept(Clean(s)) == kept;
  }

  lemma EmptyResolve(rooted: bool)
    ensures Resolve(rooted, [], []) == []
  {
  }

  // ---- Climbing ----

  /** Some part takes the path above the directory that lies `depth` names up. */
  predicate Climbs(parts: seq<string>, depth: nat)
    decreases |parts|
  {
    parts != [] &&
    if parts[0] == "" || parts[0] == "." then Climbs(parts[1..], depth)
    else if parts[0] != ".." then Climbs(parts[1..], depth + 1)
    else depth == 0 || Climbs(parts[1..], depth - 1)
  }

  predicate Above(kept: seq<string>) {
    kept != [] && kept[0] == ".."
  }

  lemma PushStaysAbove(kept: seq<string>, part: string)
    requires Shape(false, kept) && Above(kept) && SlashFree(part)
    ensures Above(Push(false, kept, part))
  {
  }

  lemma {:induction false} ResolveStaysAbove(kept: seq<string>, parts: seq<string>)
    requires Shape(false, kept) && Above(kept) && forall i :: 0 <= i < |parts| ==> SlashFree(parts[i])
    ensures Above(Resolve(false, kept, parts))
    decreases |parts|
  {
    hide Shape, Push, Above;
    if parts != [] {
      PushKeepsShape(false, kept, parts[0]);
      PushStaysAbove(kept, parts[0]);
      ResolveStaysAbove(Push(false, kept, parts[0]), parts[1..]);
    }
  }

  /** A relative path keeps double dots exactly when some part of it climbs above where it starts. */
  lemma {:induction false} AboveIffClimbs(kept: seq<string>, parts: seq<string>)
    requires Shape(false, kept) && !Above(kept) && forall i :: 0 <= i < |parts| ==> SlashFree(parts[i])
    ensures Above(Resolve(false, kept, parts)) <==> Climbs(parts, |kept|)
    decreases |parts|
  {
    if parts != [] {
      var more := Push(false, kept, parts[0]);
      PushKeepsShape(false, kept, parts[0]);
      if Above(more) {
        ResolveStaysAbove(more, parts[1..]);
      } else {
        AboveIffClimbs(more, parts[1..]);
      }
    }
  }

  ghost predicate Directory(d: seq<string>) {
    forall i :: 0 <= i < |d| ==> Name(d[i])
  }

  /** From every directory, `s` leads to that directory or below it. */
  ghost predicate Inside(s: string) {
    forall d :: Directory(d) ==> d <= Locate(d, s)
  }

  lemma {:induction false} ClimbsToNames(kept: seq<string>)
    requires Shape(false, kept)
    ensures Walk([], kept) == [] || Name(Walk([], kept)[0])
    decreases |kept|
  {
    if kept == [] {
      return;
    }
    if kept[0] == ".." {
      ClimbsToNames(kept[1..]);
    } else {
      WalkNames([], kept);
      assert [] + kept == kept;
    }
  }

  /** A directory from which a path that climbs ends up elsewhere. */
  lemma OutsideFrom(s: string) returns (d: seq<string>)
    requires !Rooted(s) && Above(Kept(s))
    ensures Directory(d) && !(d <= Locate(d, s))
  {
    var kept := Kept(s);
    KeptShape(s);
    ClimbsToNames(kept[1..]);
    var place := Walk([], kept[1..]);
    d := if place != [] && place[0] == "a" then ["b"] else ["a"];
    assert Walk(d, kept) == place;
    ResolveKeepsPlace(false, d, [], Split(s));
  }

  /** A relative path stays inside every directory exactly when no part of it climbs above where it starts. */
  lemma InsideIff(s: string)
    requires !Rooted(s)
    ensures Inside(s) <==> !Climbs(Split(s), 0)
  {
    hide Split, Resolve, Climbs, Walk, Locate;
    KeptShape(s);
    AboveIffClimbs([], Split(s));
    if Above(Kept(s)) {
      var d := OutsideFrom(s);
    } else {
      forall d | Directory(d)
        ensures d <= Locate(d, s)
      {
        BelowStart(d, s);
      }
    }
  }

  lemma BelowStart(d: seq<string>, s: string)
    requires !Rooted(s) && !Above(Kept(s))
    ensures Locate(d, s) == d + Kept(s)
  {
    KeptShape(s);
    ResolveKeepsPlace(false, d, [], Split(s));
    WalkNames(d, Kept(s));
  }
}
