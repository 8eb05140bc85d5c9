/**
 Readers, the two cache levels and the timeline worker of the latest feed as a protocol (feed/service.go ListLatest,
 feed/cache.go, worker/timeline_worker.go). Each Redis command is one step; processes interleave freely and may die.
*/
module LatestProtocol {

  // A page, reduced to the timeline insertions that had happened when it was loaded.
  type Page = set<nat>

  // Insertions are numbered. A worker adds, makes sure the version exists, then increments it.
  datatype Worker = Added(insertion: nat) | Ready(insertion: nat)

  // `known` is history: the insertions whose bump had returned when the reader read the version.
  datatype Reader =
    | Started
    | Prepared
    | Versioned(version: int, known: set<nat>)
    | Loaded(version: int, known: set<nat>, page: Page)
    | Served(version: int, known: set<nat>, page: Page)

  // Keys of the caches: an API instance (0 for Redis), a version and a request.
  datatype Slot = Slot(instance: nat, version: int, request: nat)

  // bumped maps an insertion to the version its BumpVersion returned; version 0 stands for a missing key.
  datatype State = State(
    version: nat,
    timeline: set<nat>,
    bumped: map<nat, int>,
    workers: map<nat, Worker>,
    readers: map<nat, Reader>,
    cached: map<Slot, Page>)

  const EMPTY: State := State(0, {}, map[], map[], map[], map[])

  datatype Step =
    | Add(worker: nat, insertion: nat)
    | InitByWorker(worker: nat)
    | Increment(worker: nat)
    | WorkerDies(worker: nat)
    | Begin(reader: nat)
    | InitByReader(reader: nat)
    | ReadVersion(reader: nat)
    | VersionFails(reader: nat)
    | Hit(reader: nat, slot: Slot)
    | Load(reader: nat)
    | Store(reader: nat, slot: Slot)
    | Answer(reader: nat)
    | ReaderDies(reader: nat)
    | Expire(slot: Slot)

  predicate Enabled(s: State, step: Step) {
    match step
    case Add(w, id) => w !in s.workers && id !in s.timeline
    case InitByWorker(w) => w in s.workers && s.workers[w].Added?
    case Increment(w) => w in s.workers && s.workers[w].Ready?
    case WorkerDies(w) => w in s.workers
    case Begin(r) => r !in s.readers
    case InitByReader(r) => r in s.readers && s.readers[r].Started?
    case ReadVersion(r) => r in s.readers && s.readers[r].Prepared?
    case VersionFails(r) => r in s.readers && (s.readers[r].Started? || s.readers[r].Prepared?)
    case Hit(r, slot) =>
      r in s.readers && s.readers[r].Versioned? && slot in s.cached && slot.version == s.readers[r].version
    case Load(r) => r in s.readers && s.readers[r].Versioned?
    case Store(r, slot) =>
      r in s.readers && (s.readers[r].Loaded? || s.readers[r].Served?) && slot.version == s.readers[r].version
    case Answer(r) => r in s.readers && s.readers[r].Loaded?
    case ReaderDies(r) => r in s.readers
    case Expire(slot) => slot in s.cached
  }

  function SetNX(version: nat): nat {
    if version == 0 then 1 else version
  }

  function Apply(s: State, step: Step): State
    requires Enabled(s, step)
  {
    match step
    case Add(w, id) => s.(timeline := s.timeline + {id}, workers := s.workers[w := Added(id)])
    case InitByWorker(w) => s.(version := SetNX(s.version), workers := s.workers[w := Ready(s.workers[w].insertion)])
    case Increment(w) =>
      s.(version := s.version + 1, bumped := s.bumped[s.workers[w].insertion := s.version + 1],
         workers := s.workers - {w})
    case WorkerDies(w) => s.(workers := s.workers - {w})
    case Begin(r) => s.(readers := s.readers[r := Started])
    case InitByReader(r) => s.(version := SetNX(s.version), readers := s.readers[r := Prepared])
    case ReadVersion(r) => s.(readers := s.readers[r := Versioned(SetNX(s.version), s.bumped.Keys)])
    case VersionFails(r) => s.(readers := s.readers[r := Versioned(1, {})])
    case Hit(r, slot) => s.(readers := s.readers[r := Served(slot.version, s.readers[r].known, s.cached[slot])])
    case Load(r) => s.(readers := s.readers[r := Loaded(s.readers[r].version, s.readers[r].known, s.timeline)])
    case Store(r, slot) => s.(cached := s.cached[slot := s.readers[r].page])
    case Answer(r) => s.(readers := s.readers[r := Served(s.readers[r].version, s.readers[r].known, s.readers[r].page)])
    case ReaderDies(r) => s.(readers := s.readers - {r})
    case Expire(slot) => s.(cached := s.cached - {slot})
  }

  // ---------------------------------------------------------------- the invariant

  // The versions a reader may hold: no bump still to come returns one of them.
  predicate Issued(s: State, version: int) {
    version == 1 || 1 <= version <= s.version
  }

  // Under version n a page shows every insertion whose bump returned at most n.
  predicate Complete(s: State, version: int, page: Page) {
    Issued(s, version) && forall id :: id in s.bumped && s.bumped[id] <= version ==> id in page
  }

  predicate KnownBy(s: State, version: int, known: set<nat>) {
    forall id :: id in known ==> id in s.bumped && s.bumped[id] <= version
  }

  predicate ReaderOk(s: State, r: Reader) {
    match r
    case Started => true
    case Prepared => true
    case Versioned(n, known) => Issued(s, n) && KnownBy(s, n, known)
    case Loaded(n, known, page) => Complete(s, n, page) && KnownBy(s, n, known)
    case Served(n, known, page) => Complete(s, n, page) && KnownBy(s, n, known)
  }

  predicate WorkerOk(s: State, w: Worker) {
    && w.insertion in s.timeline && w.insertion !in s.bumped
    && (w.Ready? ==> s.version >= 1)
  }

  ghost predicate BumpsOk(s: State) {
    && (forall id :: id in s.bumped ==> id in s.timeline && 2 <= s.bumped[id] <= s.version)
    && (forall w, v :: w in s.workers && v in s.workers && w != v ==> s.workers[w].insertion != s.workers[v].insertion)
  }

  ghost predicate Inv(s: State) {
    && BumpsOk(s)
    && (forall w :: w in s.workers ==> WorkerOk(s, s.workers[w]))
    && (forall r :: r in s.readers ==> ReaderOk(s, s.readers[r]))
    && (forall slot :: slot in s.cached ==> Complete(s, slot.version, s.cached[slot]))
  }

  // A page stays complete: bumps still to come return higher versions.
  lemma StaysComplete(s: State, step: Step, version: int, page: Page)
    requires Inv(s) && Enabled(s, step) && Complete(s, version, page)
    ensures Complete(Apply(s, step), version, page)
  {
    if step.Increment? {
      assert WorkerOk(s, s.workers[step.worker]);
    }
  }

  lemma StaysKnown(s: State, step: Step, version: int, known: set<nat>)
    requires Inv(s) && Enabled(s, step) && KnownBy(s, version, known)
    ensures KnownBy(Apply(s, step), version, known)
  {
    if step.Increment? {
      assert WorkerOk(s, s.workers[step.worker]);
    }
  }

  lemma StaysIssued(s: State, step: Step, version: int)
    requires Enabled(s, step) && Issued(s, version)
    ensures Issued(Apply(s, step), version)
  {}

  lemma ReaderStaysOk(s: State, step: Step, r: Reader)
    requires Inv(s) && Enabled(s, step) && ReaderOk(s, r)
    ensures ReaderOk(Apply(s, step), r)
  {
    match r
    case Versioned(n, known) =>
      StaysIssued(s, step, n);
      StaysKnown(s, step, n, known);
    case Loaded(n, known, page) =>
      StaysComplete(s, step, n, page);
      StaysKnown(s, step, n, known);
    case Served(n, known, page) =>
      StaysComplete(s, step, n, page);
      StaysKnown(s, step, n, known);
    case _ =>
  }

  lemma MovedReaderOk(s: State, step: Step, r: nat)
    requires Inv(s) && Enabled(s, step) && r in Apply(s, step).readers
    requires r in s.readers ==> Apply(s, step).readers[r] != s.readers[r]
    ensures ReaderOk(Apply(s, step), Apply(s, step).readers[r])
  {
    if r in s.readers {
      assert ReaderOk(s, s.readers[r]);
    }
    if step.Hit? {
      assert Complete(s, step.slot.version, s.cached[step.slot]);
    }
  }

  lemma StepKeepsReaders(s: State, step: Step, r: nat)
    requires Inv(s) && Enabled(s, step) && r in Apply(s, step).readers
    ensures ReaderOk(Apply(s, step), Apply(s, step).readers[r])
  {
    if r in s.readers && Apply(s, step).readers[r] == s.readers[r] {
      ReaderStaysOk(s, step, s.readers[r]);
    } else {
      MovedReaderOk(s, step, r);
    }
  }

  lemma StepKeepsCache(s: State, step: Step, slot: Slot)
    requires Inv(s) && Enabled(s, step) && slot in Apply(s, step).cached
    ensures Complete(Apply(s, step), slot.version, Apply(s, step).cached[slot])
  {
    if step.Store? && slot == step.slot {
      assert ReaderOk(s, s.readers[step.reader]);
      StaysComplete(s, step, slot.version, s.readers[step.reader].page);
    } else {
      StaysComplete(s, step, slot.version, s.cached[slot]);
    }
  }

  lemma StepKeepsBumps(s: State, step: Step)
    requires Inv(s) && Enabled(s, step)
    ensures BumpsOk(Apply(s, step))
    ensures forall w :: w in Apply(s, step).workers ==> WorkerOk(Apply(s, step), Apply(s, step).workers[w])
  {
    var s' := Apply(s, step);
    forall w | w in s'.workers ensures WorkerOk(s', s'.workers[w]) {
      if w in s.workers {
        assert WorkerOk(s, s.workers[w]);
      }
    }
    if step.Increment? {
      assert WorkerOk(s, s.workers[step.worker]);
    }
    if step.Add? {
      forall w | w in s.workers ensures s.workers[w].insertion != step.insertion {
        assert WorkerOk(s, s.workers[w]);
      }
    }
  }

  lemma StepKeepsInv(s: State, step: Step)
    requires Inv(s) && Enabled(s, step)
    ensures Inv(Apply(s, step))
  {
    StepKeepsBumps(s, step);
    forall r | r in Apply(s, step).readers ensures ReaderOk(Apply(s, step), Apply(s, step).readers[r]) {
      StepKeepsReaders(s, step, r);
    }
    forall slot | slot in Apply(s, step).cached ensures Complete(Apply(s, step), slot.version,
                                                                 Apply(s, step).cached[slot]) {
      StepKeepsCache(s, step, slot);
    }
  }

  // ---------------------------------------------------------------- runs

  ghost predicate IsRun(s: State, steps: seq<Step>)
    decreases |steps|
  {
    steps == [] || (Enabled(s, steps[0]) && IsRun(Apply(s, steps[0]), steps[1..]))
  }

  ghost function Reached(s: State, steps: seq<Step>): State
    requires IsRun(s, steps)
    decreases |steps|
  {
    if steps == [] then s else Reached(Apply(s, steps[0]), steps[1..])
  }

  lemma {:induction false} RunKeepsInv(s: State, steps: seq<Step>)
    requires Inv(s) && IsRun(s, steps)
    ensures Inv(Reached(s, steps))
    decreases |steps|
  {
    if steps != [] {
      StepKeepsInv(s, steps[0]);
      RunKeepsInv(Apply(s, steps[0]), steps[1..]);
    }
  }

  // In every run, a page served under version n, from either cache or from the stores, was loaded after every
  // timeline insertion whose bump returned at most n; so it shows every video whose bump had returned when the reader
  // asked for the version.
  lemma ServedPagesAreComplete(steps: seq<Step>, r: nat)
    requires IsRun(EMPTY, steps)
    requires r in Reached(EMPTY, steps).readers && Reached(EMPTY, steps).readers[r].Served?
    ensures var s := Reached(EMPTY, steps); var reader := s.readers[r];
            && (forall id :: id in s.bumped && s.bumped[id] <= reader.version ==> id in reader.page)
            && reader.known <= reader.page
  {
    RunKeepsInv(EMPTY, steps);
    var s := Reached(EMPTY, steps);
    assert ReaderOk(s, s.readers[r]);
  }
}
