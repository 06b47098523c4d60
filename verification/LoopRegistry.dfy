/** Loop devices shared by every sandbox of one template image, over a model of the kernel's loop table. */
module LoopRegistry {
  import opened Records

  type Path = string
  datatype Device = Device(number: nat)
  datatype Held = Held(device: Device, refs: int)

  type Loops = map<Device, Path>
  type Entries = map<Path, Held>
  datatype State = State(loops: Loops, entries: Entries)

  /** Whether a detach attempt finds the device busy. */
  type Busy = nat -> bool

  const ATTEMPTS := 5

  /** Calls, with what the environment decides: whether the query works, which free device an attach gets if it
      works, and which detach attempts find the device busy. */
  datatype Call =
    | Acquire(path: Path, queryOk: bool, free: Option<Device>)
    | Release(path: Path, busy: Busy)
    | ReleaseAll(busyOn: Path -> Busy)

  ghost predicate Sole(loops: Loops, path: Path, d: Device) {
    d in loops && loops[d] == path && forall e :: e in loops && loops[e] == path ==> e == d
  }

  /** A query that works finds a device when exactly one is attached. */
  ghost function Find(loops: Loops, path: Path, queryOk: bool): (r: Option<Device>)
    ensures r.Some? <==> queryOk && exists d :: Sole(loops, path, d)
    ensures r.Some? ==> Sole(loops, path, r.value)
  {
    if queryOk && exists d :: Sole(loops, path, d) then (var d :| Sole(loops, path, d); Some(d)) else None
  }

  predicate Frees(busy: Busy) {
    exists i :: 0 <= i < ATTEMPTS && !busy(i)
  }

  predicate Detaches(loops: Loops, d: Device, busy: Busy) {
    d in loops && Frees(busy)
  }

  ghost function Freed(s: State, busyOn: Path -> Busy): set<Device> {
    set p | p in s.entries && Detaches(s.loops, s.entries[p].device, busyOn(p)) :: s.entries[p].device
  }

  ghost function Exec(s: State, call: Call): State {
    match call
    case Acquire(path, queryOk, free) =>
      if path in s.entries then s.(entries := s.entries[path := s.entries[path].(refs := s.entries[path].refs + 1)])
      else
        var found := Find(s.loops, path, queryOk);
        if found.Some? then s.(entries := s.entries[path := Held(found.value, 1)])
        else if free.Some? then State(s.loops[free.value := path], s.entries[path := Held(free.value, 1)])
        else s
    case Release(path, busy) =>
      if path !in s.entries then s
      else
        var e := s.entries[path].(refs := s.entries[path].refs - 1);
        if e.refs <= 0
        then State(if Detaches(s.loops, e.device, busy) then s.loops - {e.device} else s.loops, s.entries - {path})
        else s.(entries := s.entries[path := e])
    case ReleaseAll(busyOn) => State(s.loops - Freed(s, busyOn), map[])
  }

  /** An attach takes a device that is free. */
  predicate Legal(s: State, call: Call) {
    call.Acquire? && call.free.Some? ==> call.free.value !in s.loops
  }

  ghost predicate LegalRun(s: State, calls: seq<Call>)
    decreases |calls|
  {
    calls == [] || (Legal(s, calls[0]) && LegalRun(Exec(s, calls[0]), calls[1..]))
  }

  ghost function Run(s: State, calls: seq<Call>): State
    decreases |calls|
  {
    if calls == [] then s else Run(Exec(s, calls[0]), calls[1..])
  }

  // ---- One loop per image ----

  ghost predicate OneEach(loops: Loops) {
    forall d, e :: d in loops && e in loops && loops[d] == loops[e] ==> d == e
  }

  ghost predicate Attached(loops: Loops, path: Path) {
    exists d :: d in loops && loops[d] == path
  }

  /** Attaching although the image already has a loop: the registry has no entry for it and the query failed. */
  ghost predicate Duplicates(s: State, call: Call) {
    call.Acquire? && call.path !in s.entries && !call.queryOk && call.free.Some? && Attached(s.loops, call.path)
  }

  /** Exactly the failed query on an attached image gives an image a second loop. */
  lemma OneEachKeptIff(s: State, call: Call)
    requires OneEach(s.loops) && Legal(s, call)
    ensures OneEach(Exec(s, call).loops) <==> !Duplicates(s, call)
  {
    if call.Acquire? && call.path !in s.entries && call.free.Some? {
      if Attached(s.loops, call.path) {
        var d :| d in s.loops && s.loops[d] == call.path;
        assert Sole(s.loops, call.path, d);
        if !call.queryOk {
          var after := Exec(s, call).loops;
          assert d in after && after[d] == after[call.free.value];
        }
      }
    }
  }

  /** The image has a loop, the query fails, and the image gets a second one. */
  lemma FailedQueryDuplicates(path: Path)
    ensures var s := State(map[Device(0) := path], map[]);
            var call := Acquire(path, false, Some(Device(1)));
            OneEach(s.loops) && Legal(s, call) && !OneEach(Exec(s, call).loops)
  {
    var s := State(map[Device(0) := path], map[]);
    assert Device(0) in s.loops && s.loops[Device(0)] == path;
    OneEachKeptIff(s, Acquire(path, false, Some(Device(1))));
  }

  // ---- Registry and kernel agree ----

  ghost predicate Backed(loops: Loops, entries: Entries) {
    forall p :: p in entries ==> entries[p].device in loops && loops[entries[p].device] == p && entries[p].refs >= 1
  }

  lemma BackedKept(s: State, call: Call)
    requires Backed(s.loops, s.entries) && Legal(s, call)
    ensures Backed(Exec(s, call).loops, Exec(s, call).entries)
  {
  }

  ghost function Outstanding(path: Path, s: State, calls: seq<Call>, before: nat): nat
    decreases |calls|
  {
    if calls == [] then before
    else Outstanding(path, Exec(s, calls[0]), calls[1..], CountAfter(path, s, calls[0], before))
  }

  /** An acquire that returned a device for `path`. */
  ghost predicate Succeeds(s: State, call: Call, path: Path) {
    call.Acquire? && call.path == path
      && (path in s.entries || Find(s.loops, path, call.queryOk).Some? || call.free.Some?)
  }

  /** Acquires of `path` not yet released; a release without an acquire counts for nothing. */
  ghost function CountAfter(path: Path, s: State, call: Call, before: nat): nat {
    if Succeeds(s, call, path) then before + 1
    else if call.Release? && call.path == path && before > 0 then before - 1
    else if call.ReleaseAll? then 0
    else before
  }

  function Refs(entries: Entries, path: Path): int {
    if path in entries then entries[path].refs else 0
  }

  /** Over every run: the registry's entries are backed by the kernel and each refcount is the number of
      outstanding acquires. */
  lemma {:induction false} RefsAreOutstanding(path: Path, s: State, calls: seq<Call>, before: nat)
    requires Backed(s.loops, s.entries) && LegalRun(s, calls) && Refs(s.entries, path) == before
    ensures var t := Run(s, calls);
            Backed(t.loops, t.entries) && Refs(t.entries, path) == Outstanding(path, s, calls, before)
    decreases |calls|
  {
    if calls != [] {
      BackedKept(s, calls[0]);
      RefsAreOutstanding(path, Exec(s, calls[0]), calls[1..], CountAfter(path, s, calls[0], before));
    }
  }

  ghost predicate QueriesWork(calls: seq<Call>) {
    forall i :: 0 <= i < |calls| && calls[i].Acquire? ==> calls[i].queryOk
  }

  /** With a faithful query, any run, whatever detaches fail, keeps at most one loop per image. */
  lemma {:induction false} RunsKeepOneEach(s: State, calls: seq<Call>)
    requires OneEach(s.loops) && LegalRun(s, calls) && QueriesWork(calls)
    ensures OneEach(Run(s, calls).loops)
    decreases |calls|
  {
    if calls != [] {
      assert calls[0].Acquire? ==> calls[0].queryOk;
      OneEachKeptIff(s, calls[0]);
      RunsKeepOneEach(Exec(s, calls[0]), calls[1..]);
    }
  }

  /** No release takes the loop of an image whose acquires are not all released. */
  lemma HeldLoopsStay(s: State, call: Call, path: Path)
    requires Backed(s.loops, s.entries) && Legal(s, call)
    requires path in s.entries && CountAfter(path, s, call, s.entries[path].refs) > 0
    ensures var t := Exec(s, call);
            && path in t.entries && t.entries[path].device == s.entries[path].device
            && t.entries[path].device in t.loops && t.loops[t.entries[path].device] == path
  {
    BackedKept(s, call);
  }

  /** A failed detach leaks nothing that matters: the next acquire of the image takes the same loop again. */
  lemma LeakedLoopIsReused(s: State, path: Path, busy: Busy, queryOk: bool, free: Option<Device>)
    requires Backed(s.loops, s.entries) && OneEach(s.loops)
    requires path in s.entries && s.entries[path].refs == 1 && !Frees(busy) && queryOk
    ensures Exec(Exec(s, Release(path, busy)), Acquire(path, queryOk, free)) == s
  {
    var dev := s.entries[path].device;
    assert Sole(s.loops, path, dev);
    var mid := Exec(s, Release(path, busy));
    assert mid == State(s.loops, s.entries - {path});
    assert Find(mid.loops, path, queryOk) == Some(dev);
    assert (s.entries - {path})[path := Held(dev, 1)] == s.entries;
  }

  /** The call gives up the last reference to `path` and the detach works. */
  ghost predicate TakesDown(s: State, call: Call, path: Path) {
    && path in s.entries
    && ((call.Release? && call.path == path && s.entries[path].refs == 1 && Frees(call.busy))
        || (call.ReleaseAll? && Frees(call.busyOn(path))))
  }

  /** Two registries over one kernel, as when short-lived processes share a host: a call of one leaves the other's
      entries backed exactly when it does not take down the loop of an image the other holds too. */
  lemma OtherRegistryKeptIff(mine: State, theirs: Entries, call: Call)
    requires Backed(mine.loops, mine.entries) && Backed(mine.loops, theirs) && OneEach(mine.loops) && Legal(mine, call)
    ensures Backed(Exec(mine, call).loops, theirs) <==> forall p :: p in theirs ==> !TakesDown(mine, call, p)
  {
    hide Exec;
    forall p | p in theirs ensures theirs[p].device in Exec(mine, call).loops <==> !TakesDown(mine, call, p) {
      LoopKeptIff(mine, p, theirs[p].device, call);
    }
    LoopsKeepTheirFile(mine, call);
  }

  /** Two processes hold the same image; the first to let go takes the loop from the other. */
  lemma SharedLoopIsTaken(path: Path)
    ensures var held := map[path := Held(Device(0), 1)];
            var mine := State(map[Device(0) := path], held);
            Backed(mine.loops, held) && !Backed(Exec(mine, Release(path, i => false)).loops, held)
  {
    var held := map[path := Held(Device(0), 1)];
    var mine := State(map[Device(0) := path], held);
    var busy: Busy := i => false;
    assert Frees(busy) by { assert !busy(0); }
    assert TakesDown(mine, Release(path, busy), path);
    OtherRegistryKeptIff(mine, held, Release(path, busy));
  }

  lemma LoopKeptIff(s: State, path: Path, d: Device, call: Call)
    requires Backed(s.loops, s.entries) && OneEach(s.loops) && Legal(s, call) && d in s.loops && s.loops[d] == path
    ensures d in Exec(s, call).loops <==> !TakesDown(s, call, path)
  {
    assert path in s.entries ==> s.entries[path].device == d;
    if call.ReleaseAll? && TakesDown(s, call, path) { assert d in Freed(s, call.busyOn); }
  }

  lemma LoopsKeepTheirFile(s: State, call: Call)
    requires Legal(s, call)
    ensures forall d :: d in s.loops && d in Exec(s, call).loops ==> Exec(s, call).loops[d] == s.loops[d]
  {
  }

  // ---- The registry as it runs ----

  class Kernel {
    var loops: Loops

    /** `losetup -j`: every device attached to the file, each once. */
    method Query(path: Path) returns (devs: seq<Device>)
      ensures forall d :: d in devs <==> d in loops && loops[d] == path
      ensures forall i, j :: 0 <= i < j < |devs| ==> devs[i] != devs[j]
    {
      devs := [];
      var todo := loops.Keys;
      while todo != {}
        invariant todo <= loops.Keys
        invariant forall d :: d in devs <==> d in loops && d !in todo && loops[d] == path
        invariant forall i, j :: 0 <= i < j < |devs| ==> devs[i] != devs[j]
        decreases |todo|
      {
        var d := Pick(todo);
        todo := todo - {d};
        if loops[d] == path {
          assert d !in devs;
          devs := devs + [d];
        }
      }
    }

    method FindByFile(path: Path, queryOk: bool) returns (dev: Option<Device>)
      ensures dev == Find(loops, path, queryOk)
    {
      if !queryOk {
        return None;
      }
      var devs := Query(path);
      if |devs| != 1 {
        if |devs| > 1 {
          assert devs[0] in devs && devs[1] in devs;
        }
        return None;
      }
      assert devs[0] in devs;
      assert Sole(loops, path, devs[0]);
      return Some(devs[0]);
    }

    method Create(path: Path, queryOk: bool, free: Option<Device>) returns (dev: Option<Device>)
      requires free.Some? ==> free.value !in loops
      modifies this
      ensures var found := Find(old(loops), path, queryOk);
              && dev == (if found.Some? then found else free)
              && loops == (if found.None? && free.Some? then old(loops)[free.value := path] else old(loops))
    {
      dev := FindByFile(path, queryOk);
      if dev.Some? {
        return;
      }
      dev := free;
      if free.Some? {
        loops := loops[free.value := path];
      }
    }

    method DetachRetry(dev: Device, busy: Busy) returns (ok: bool)
      modifies this
      ensures ok == Detaches(old(loops), dev, busy)
      ensures loops == if ok then old(loops) - {dev} else old(loops)
    {
      for attempt := 0 to ATTEMPTS
        invariant loops == old(loops)
        invariant forall i :: 0 <= i < attempt ==> dev !in loops || busy(i)
      {
        if dev in loops && !busy(attempt) {
          loops := loops - {dev};
          return true;
        }
      }
      return false;
    }
  }

  class LoopRegistry {
    const kernel: Kernel
    var entries: Entries

    constructor (kernel: Kernel)
      ensures this.kernel == kernel && entries == map[]
    {
      this.kernel, entries := kernel, map[];
    }

    function View(): State
      reads this, kernel
    {
      State(kernel.loops, entries)
    }

    method Acquire(path: Path, queryOk: bool, free: Option<Device>) returns (dev: Option<Device>)
      requires Legal(View(), Call.Acquire(path, queryOk, free))
      modifies this, kernel
      ensures View() == Exec(old(View()), Call.Acquire(path, queryOk, free))
      ensures dev.Some? == Succeeds(old(View()), Call.Acquire(path, queryOk, free), path)
      ensures dev.Some? ==> path in entries && entries[path].device == dev.value
    {
      if path in entries {
        entries := entries[path := entries[path].(refs := entries[path].refs + 1)];
        return Some(entries[path].device);
      }
      dev := kernel.Create(path, queryOk, free);
      if dev.None? {
        return;
      }
      entries := entries[path := Held(dev.value, 1)];
    }

    method Release(path: Path, busy: Busy)
      modifies this, kernel
      ensures View() == Exec(old(View()), Call.Release(path, busy))
    {
      if path !in entries {
        return;
      }
      var e := entries[path];
      e := e.(refs := e.refs - 1);
      if e.refs <= 0 {
        var ok := kernel.DetachRetry(e.device, busy);
        entries := entries - {path};
      } else {
        entries := entries[path := e];
      }
    }

    method ReleaseAll(busyOn: Path -> Busy)
      modifies this, kernel
      ensures View() == Exec(old(View()), Call.ReleaseAll(busyOn))
    {
      hide Detaches, Gone;
      ghost var was := View();
      GoneAtEnds(was, busyOn);
      while entries.Keys != {}
        invariant Within(entries, was.entries)
        invariant kernel.loops == was.loops - Gone(was, entries.Keys, busyOn)
        decreases |entries.Keys|
      {
        var path := Pick(entries.Keys);
        ghost var left := entries.Keys;
        var ok := kernel.DetachRetry(entries[path].device, busyOn(path));
        entries := entries - {path};
        GoneStep(was, left, path, busyOn);
        assert entries.Keys == left - {path};
      }
      assert entries == map[];
    }
  }

  ghost predicate Within(left: Entries, all: Entries) {
    forall p :: p in left ==> p in all && left[p] == all[p]
  }

  /** The devices detached once only `left` remains to be released. */
  ghost function Gone(s: State, left: set<Path>, busyOn: Path -> Busy): set<Device> {
    set p | p in s.entries && p !in left && Detaches(s.loops, s.entries[p].device, busyOn(p)) :: s.entries[p].device
  }

  lemma GoneAtEnds(s: State, busyOn: Path -> Busy)
    ensures s.loops - Gone(s, s.entries.Keys, busyOn) == s.loops && Gone(s, {}, busyOn) == Freed(s, busyOn)
  {
    assert Gone(s, s.entries.Keys, busyOn) == {};
  }

  lemma GoneStep(s: State, left: set<Path>, path: Path, busyOn: Path -> Busy)
    requires path in s.entries && path in left
    ensures var dev, before := s.entries[path].device, Gone(s, left, busyOn);
            s.loops - Gone(s, left - {path}, busyOn)
            == if Detaches(s.loops - before, dev, busyOn(path)) then s.loops - before - {dev} else s.loops - before
  {
    var dev := s.entries[path].device;
    assert Gone(s, left - {path}, busyOn)
        == Gone(s, left, busyOn) + (if Detaches(s.loops, dev, busyOn(path)) then {dev} else {});
  }

  // ---- Giving a loop up ----

  /** Giving up the last reference forgets the entry and takes the loop down unless all five attempts find it busy;
      giving up any other reference only counts; an image that is not held is left alone. */
  lemma ReleaseOutcome(s: State, path: Path, busy: Busy)
    requires Backed(s.loops, s.entries)
    ensures var after := Exec(s, Release(path, busy));
            if path !in s.entries then after == s
            else
              var held := s.entries[path];
              if held.refs > 1 then after == s.(entries := s.entries[path := Held(held.device, held.refs - 1)])
              else
                && after.entries == s.entries - {path}
                && (held.device in after.loops <==> busy(0) && busy(1) && busy(2) && busy(3) && busy(4))
                && (forall d :: d != held.device ==> (d in after.loops <==> d in s.loops))
  {
    FreesIff(busy);
    hide Frees;
  }

  lemma FreesIff(busy: Busy)
    ensures Frees(busy) <==> !(busy(0) && busy(1) && busy(2) && busy(3) && busy(4))
  {
  }
}
