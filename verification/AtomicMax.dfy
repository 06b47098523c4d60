/**
A maximum kept by compare-and-exchange. Any number of calls interleave; a load may return any value the cell has held
(the memory orders used promise no more), and a weak exchange may fail for no reason.
*/
module AtomicMax {
  import opened Records

  const I64_MIN: int := -0x8000_0000_0000_0000
  const I64_MAX: int := 0x7fff_ffff_ffff_ffff
  type I64 = x: int | I64_MIN <= x <= I64_MAX

  datatype CallId = CallId(id: nat)
  datatype Pc = AtLoad(arg: I64) | AtExchange(arg: I64, current: I64) | Returned(arg: I64, result: bool)
  datatype Install = Install(value: I64, call: CallId)
  datatype Return = Return(call: CallId, arg: I64, result: bool)

  /** `installs` is the modification order of the cell after its initial value, `log` the calls in order of return. */
  datatype State = State(installs: seq<Install>, calls: map<CallId, Pc>, log: seq<Return>)

  datatype Step = Begin(call: CallId, arg: I64) | Load(call: CallId, index: nat)
    | Exchange(call: CallId, spurious: bool)

  const INIT := State([], map[], [])

  /** The value after the first `n` installs. */
  function ValueAt(s: State, n: nat): I64
    requires n <= |s.installs|
  {
    if n == 0 then I64_MIN else s.installs[n - 1].value
  }

  function Value(s: State): I64 {
    ValueAt(s, |s.installs|)
  }

  predicate Enabled(s: State, st: Step) {
    match st
    case Begin(c, _) => c !in s.calls
    case Load(c, index) => c in s.calls && s.calls[c].AtLoad? && index <= |s.installs|
    case Exchange(c, _) => c in s.calls && s.calls[c].AtExchange?
  }

  function Next(s: State, st: Step): State
    requires Enabled(s, st)
  {
    match st
    case Begin(c, arg) => s.(calls := s.calls[c := AtLoad(arg)])
    case Load(c, index) =>
      var arg, current := s.calls[c].arg, ValueAt(s, index);
      if arg <= current then s.(calls := s.calls[c := Returned(arg, false)], log := s.log + [Return(c, arg, false)])
      else s.(calls := s.calls[c := AtExchange(arg, current)])
    case Exchange(c, spurious) =>
      var arg := s.calls[c].arg;
      if Value(s) == s.calls[c].current && !spurious
      then State(s.installs + [Install(arg, c)], s.calls[c := Returned(arg, true)], s.log + [Return(c, arg, true)])
      else s.(calls := s.calls[c := AtLoad(arg)])
  }

  ghost predicate Legal(s: State, steps: seq<Step>)
    decreases |steps|
  {
    steps == [] || (Enabled(s, steps[0]) && Legal(Next(s, steps[0]), steps[1..]))
  }

  ghost function Run(s: State, steps: seq<Step>): State
    requires Legal(s, steps)
    decreases |steps|
  {
    if steps == [] then s else Run(Next(s, steps[0]), steps[1..])
  }

  // ---- The sequential object ----

  function Max(a: I64, b: I64): I64 {
    if a < b then b else a
  }

  /** The cell after these calls, one after the other. */
  function Sequential(log: seq<Return>): I64 {
    if log == [] then I64_MIN else Max(Sequential(log[..|log| - 1]), log[|log| - 1].arg)
  }

  /** Every call answers as it would if the calls ran one after the other. */
  ghost predicate AnswersSequentially(log: seq<Return>) {
    forall i :: 0 <= i < |log| ==> (log[i].result <==> log[i].arg > Sequential(log[..i]))
  }

  function Winners(log: seq<Return>): seq<Install> {
    if log == [] then []
    else
      var last := log[|log| - 1];
      Winners(log[..|log| - 1]) + if last.result then [Install(last.arg, last.call)] else []
  }

  // ---- The invariant ----

  ghost predicate Increasing(s: State) {
    forall i, j :: 0 <= i < j <= |s.installs| ==> ValueAt(s, i) < ValueAt(s, j)
  }

  ghost predicate Exchanging(s: State) {
    forall c :: c in s.calls && s.calls[c].AtExchange? ==> s.calls[c].current < s.calls[c].arg
  }

  ghost predicate LogsReturns(s: State) {
    && (forall c :: c in s.calls && s.calls[c].Returned? ==> Return(c, s.calls[c].arg, s.calls[c].result) in s.log)
    && (forall r :: r in s.log ==> r.call in s.calls && s.calls[r.call] == Returned(r.arg, r.result))
    && (forall i, j :: 0 <= i < j < |s.log| ==> s.log[i].call != s.log[j].call)
  }

  ghost predicate Inv(s: State) {
    && Value(s) == Sequential(s.log) && AnswersSequentially(s.log) && s.installs == Winners(s.log)
    && Increasing(s) && Exchanging(s) && LogsReturns(s)
  }

  lemma SequentialSnoc(log: seq<Return>, r: Return)
    requires AnswersSequentially(log) && (r.result <==> r.arg > Sequential(log))
    ensures AnswersSequentially(log + [r]) && Sequential(log + [r]) == Max(Sequential(log), r.arg)
    ensures Winners(log + [r]) == Winners(log) + if r.result then [Install(r.arg, r.call)] else []
  {
    var all := log + [r];
    assert all[..|log|] == log;
    forall i | 0 <= i < |all| ensures all[i].result <==> all[i].arg > Sequential(all[..i]) {
      if i < |log| { assert all[..i] == log[..i]; }
    }
  }

  lemma LogsSnoc(s: State, c: CallId, arg: I64, result: bool, installs: seq<Install>)
    requires LogsReturns(s) && c in s.calls && !s.calls[c].Returned?
    ensures LogsReturns(State(installs, s.calls[c := Returned(arg, result)], s.log + [Return(c, arg, result)]))
  {
    assert forall i :: 0 <= i < |s.log| ==> s.log[i] in s.log;
  }

  lemma BelowLatest(s: State, index: nat)
    requires Increasing(s) && index <= |s.installs|
    ensures ValueAt(s, index) <= Value(s)
  {
  }

  /** Every step of every call keeps the invariant. */
  lemma StepKeepsInv(s: State, st: Step)
    requires Inv(s) && Enabled(s, st)
    ensures Inv(Next(s, st))
  {
    hide Sequential, AnswersSequentially, Winners, LogsReturns;
    var t := Next(s, st);
    var c := st.call;
    if |t.log| == |s.log| {
      assert t.installs == s.installs && t.log == s.log;
      SameInstalls(s, t);
      CallsMove(s, t, c);
    } else {
      var arg := s.calls[c].arg;
      if st.Load? { BelowLatest(s, st.index); }
      SequentialSnoc(s.log, Return(c, arg, st.Exchange?));
      LogsSnoc(s, c, arg, st.Exchange?, t.installs);
      if st.Exchange? { InstallKeepsOrder(s, t, Install(arg, c)); } else { SameInstalls(s, t); }
      assert Winners(s.log) + [] == Winners(s.log);
    }
  }

  lemma CallsMove(s: State, t: State, c: CallId)
    requires LogsReturns(s) && t.log == s.log && (c in s.calls ==> !s.calls[c].Returned?)
    requires c in t.calls && !t.calls[c].Returned? && t.calls == s.calls[c := t.calls[c]]
    ensures LogsReturns(t)
  {
    assert forall r :: r in s.log ==> r.call != c;
  }

  lemma SameInstalls(s: State, t: State)
    requires Increasing(s) && t.installs == s.installs
    ensures Increasing(t) && Value(t) == Value(s)
  {
    assert forall k :: 0 <= k <= |s.installs| ==> ValueAt(t, k) == ValueAt(s, k);
  }

  lemma InstallKeepsOrder(s: State, t: State, i: Install)
    requires Increasing(s) && t.installs == s.installs + [i] && i.value > Value(s)
    ensures Increasing(t) && Value(t) == i.value
  {
    assert forall k :: 0 <= k <= |s.installs| ==> ValueAt(t, k) == ValueAt(s, k);
  }

  lemma {:induction false} RunKeepsInv(s: State, steps: seq<Step>)
    requires Inv(s) && Legal(s, steps)
    ensures Inv(Run(s, steps))
    decreases |steps|
  {
    if steps != [] {
      StepKeepsInv(s, steps[0]);
      RunKeepsInv(Next(s, steps[0]), steps[1..]);
    }
  }

  // ---- What every interleaving guarantees ----

  /** The calls, in the order they return, are a sequential run: same answers, same value. */
  lemma Linearizable(steps: seq<Step>)
    requires Legal(INIT, steps)
    ensures var s := Run(INIT, steps);
            AnswersSequentially(s.log) && Value(s) == Sequential(s.log) && s.installs == Winners(s.log)
  {
    RunKeepsInv(INIT, steps);
  }

  /** Installed values strictly increase, and what has been installed stays: the value never decreases. */
  lemma {:induction false} NeverDecreases(s: State, steps: seq<Step>)
    requires Inv(s) && Legal(s, steps)
    ensures s.installs <= Run(s, steps).installs && Increasing(Run(s, steps)) && Value(s) <= Value(Run(s, steps))
    decreases |steps|
  {
    if steps != [] {
      var t := Next(s, steps[0]);
      StepKeepsInv(s, steps[0]);
      NeverDecreases(t, steps[1..]);
      assert s.installs <= t.installs;
      assert Value(s) <= Value(t) by {
        if steps[0].Exchange? && t.installs != s.installs { assert Value(t) == s.calls[steps[0].call].arg; }
      }
    }
  }

  lemma {:induction false} WinnersAreLogged(log: seq<Return>, c: CallId, arg: I64)
    ensures Install(arg, c) in Winners(log) <==> Return(c, arg, true) in log
  {
    if log != [] {
      WinnersAreLogged(log[..|log| - 1], c, arg);
      assert log == log[..|log| - 1] + [log[|log| - 1]];
    }
  }

  /** A call returns true exactly when its own exchange installed its argument. */
  lemma TrueIffInstalled(steps: seq<Step>, c: CallId, arg: I64)
    requires Legal(INIT, steps)
    ensures var s := Run(INIT, steps);
            Install(arg, c) in s.installs <==> c in s.calls && s.calls[c] == Returned(arg, true)
  {
    RunKeepsInv(INIT, steps);
    WinnersAreLogged(Run(INIT, steps).log, c, arg);
  }

  lemma {:induction false} LoggedBelow(log: seq<Return>, r: Return)
    requires r in log
    ensures r.arg <= Sequential(log)
  {
    var front, last := log[..|log| - 1], log[|log| - 1];
    assert log == front + [last];
    if r != last { LoggedBelow(front, r); }
  }

  /** After a call has returned, the value is at least its argument. */
  lemma ReturnedIsCovered(steps: seq<Step>, c: CallId)
    requires Legal(INIT, steps) && c in Run(INIT, steps).calls && Run(INIT, steps).calls[c].Returned?
    ensures Run(INIT, steps).calls[c].arg <= Value(Run(INIT, steps))
  {
    RunKeepsInv(INIT, steps);
    var s := Run(INIT, steps);
    LoggedBelow(s.log, Return(c, s.calls[c].arg, s.calls[c].result));
  }

  lemma {:induction false} SequentialIsSome(log: seq<Return>)
    ensures Sequential(log) == I64_MIN || exists r :: r in log && r.arg == Sequential(log)
  {
    if log != [] {
      var front, last := log[..|log| - 1], log[|log| - 1];
      assert log == front + [last];
      SequentialIsSome(front);
      if Sequential(log) != last.arg && Sequential(log) != I64_MIN {
        var r :| r in front && r.arg == Sequential(front);
        assert r in log;
      }
    }
  }

  /** When every call has returned, the value is the maximum of the initial value and all arguments. */
  lemma QuiescentIsMaximum(steps: seq<Step>)
    requires Legal(INIT, steps) && forall c :: c in Run(INIT, steps).calls ==> Run(INIT, steps).calls[c].Returned?
    ensures var s := Run(INIT, steps);
            && (forall c :: c in s.calls ==> s.calls[c].arg <= Value(s))
            && (Value(s) == I64_MIN || exists c :: c in s.calls && s.calls[c].arg == Value(s))
  {
    var s := Run(INIT, steps);
    RunKeepsInv(INIT, steps);
    forall c | c in s.calls ensures s.calls[c].arg <= Value(s) { ReturnedIsCovered(steps, c); }
    SequentialIsSome(s.log);
    if Value(s) != I64_MIN {
      var r :| r in s.log && r.arg == Sequential(s.log);
      assert r.call in s.calls;
    }
  }

  // ---- One call as it runs ----

  /** What happens between a load and the exchange: other calls may raise the value, and the exchange may fail. */
  datatype Turn = Turn(others: I64, spurious: bool)

  class Cell {
    var val: I64

    constructor ()
      ensures val == I64_MIN
    {
      val := I64_MIN;
    }

    /** `None` when the given turns are used up and the call is still trying. */
    method SetToGreater(arg: I64, turns: seq<Turn>) returns (result: Option<bool>)
      modifies this
      ensures old(val) <= val
      ensures result == Some(true) ==> val == arg && arg > old(val)
      ensures result.Some? ==> val >= arg
      ensures result == Some(false) ==> arg <= old(val) || exists i :: 0 <= i < |turns| && val == turns[i].others
      ensures turns != [] && !turns[0].spurious && turns[0].others <= old(val) ==> result == Some(arg > old(val))
    {
      for i := 0 to |turns|
        invariant old(val) <= val && (i == 0 ==> val == old(val))
        invariant val == old(val) || exists k :: 0 <= k < i && val == turns[k].others
        invariant i > 0 && turns[0].others <= old(val) ==> turns[0].spurious
      {
        var current := val;
        if arg <= current {
          return Some(false);
        }
        val := Max(val, turns[i].others);
        if val == current && !turns[i].spurious {
          val := arg;
          return Some(true);
        }
      }
      return None;
    }
  }

  // ---- Progress ----

  lemma RunOne(s: State, st: Step)
    requires Enabled(s, st)
    ensures Legal(s, [st]) && Run(s, [st]) == Next(s, st)
  {
    assert [st][1..] == [];
    assert Legal(Next(s, st), []);
  }

  lemma RunTwo(s: State, st: Step, su: Step)
    requires Enabled(s, st) && Enabled(Next(s, st), su)
    ensures Legal(s, [st, su]) && Run(s, [st, su]) == Next(Next(s, st), su)
  {
    hide Next, Enabled;
    assert [st, su][1..] == [su];
    RunOne(Next(s, st), su);
  }

  /** From any moment on, a call that is left to itself is done in one round: it may load the latest value, and then
      either its argument is no greater, or its exchange goes through. */
  lemma UndisturbedCallReturns(s: State, c: CallId)
    requires c in s.calls && s.calls[c].AtLoad?
    ensures var arg := s.calls[c].arg;
            var steps := if arg <= Value(s) then [Load(c, |s.installs|)]
                         else [Load(c, |s.installs|), Exchange(c, false)];
            && Legal(s, steps)
            && Run(s, steps).calls == s.calls[c := Returned(arg, arg > Value(s))]
            && Value(Run(s, steps)) == Max(Value(s), arg)
  {
    var arg, load := s.calls[c].arg, Load(c, |s.installs|);
    if arg <= Value(s) {
      RunOne(s, load);
    } else {
      RunTwo(s, load, Exchange(c, false));
      var mid := Next(s, load);
      assert mid.calls[c := Returned(arg, true)] == s.calls[c := Returned(arg, true)];
    }
  }

  lemma {:induction false} OthersLeaveCall(s: State, steps: seq<Step>, c: CallId)
    requires Legal(s, steps) && c in s.calls && forall i :: 0 <= i < |steps| ==> steps[i].call != c
    ensures c in Run(s, steps).calls && Run(s, steps).calls[c] == s.calls[c]
    decreases |steps|
  {
    if steps != [] {
      OthersLeaveCall(Next(s, steps[0]), steps[1..], c);
    }
  }

  /** Lock freedom: an exchange after a load of the latest value, with any steps of other calls in between, goes through
      exactly when none of them installed anything, unless it fails for no reason; and whenever it does not go through
      the call starts over with the same argument. */
  lemma ExchangeGoesThroughIff(s: State, c: CallId, steps: seq<Step>, spurious: bool)
    requires Inv(s) && Enabled(s, Load(c, |s.installs|)) && s.calls[c].arg > Value(s)
    requires Legal(Next(s, Load(c, |s.installs|)), steps) && forall i :: 0 <= i < |steps| ==> steps[i].call != c
    ensures var arg, t := s.calls[c].arg, Run(Next(s, Load(c, |s.installs|)), steps);
            && Enabled(t, Exchange(c, spurious))
            && var u := Next(t, Exchange(c, spurious));
            && (u.installs == t.installs + [Install(arg, c)] <==> !spurious && t.installs == s.installs)
            && c in u.calls
            && u.calls[c] == if !spurious && t.installs == s.installs then Returned(arg, true) else AtLoad(arg)
  {
    var load := Load(c, |s.installs|);
    var mid := Next(s, load);
    StepKeepsInv(s, load);
    OthersLeaveCall(mid, steps, c);
    NeverDecreases(mid, steps);
    RunKeepsInv(mid, steps);
    var t := Run(mid, steps);
    hide Legal, Run, Inv;
    assert mid.installs == s.installs && t.calls[c] == AtExchange(s.calls[c].arg, Value(s));
    ValueTellsInstalls(s, t);
  }

  /** The value has changed exactly when something was installed. */
  lemma ValueTellsInstalls(s: State, t: State)
    requires s.installs <= t.installs && Increasing(t)
    ensures Value(t) == Value(s) <==> t.installs == s.installs
  {
    assert ValueAt(t, |s.installs|) == Value(s);
    if |s.installs| < |t.installs| {
      assert ValueAt(t, |s.installs|) < ValueAt(t, |t.installs|);
    } else {
      assert t.installs == s.installs;
    }
  }
}
