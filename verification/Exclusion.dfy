/**
  Who may hold the update manager (updater/manager.go:227-232, 295-359, 556-573 and 941-979,
  updater/cleanup.go:34-70). Every section under the manager's lock is one step; steps of different
  callers interleave freely, the process may crash between any two, and every state write may fail.
 */
module UpdaterExclusion {
  import opened UpdateHistory

  datatype Activity = Idle | Checking | Updating | Failed

  /** A history entry, by the operation that wrote it and whether its cleanup was filled in. */
  datatype Entry = Entry(owner: nat, cleaned: bool)

  datatype Kind = Check | Update | Exclusive | Cleanup | Reservation

  /** An operation under way. `recorded` tells whether an update has written its history entry. */
  datatype Job = Job(kind: Kind, id: nat, recorded: bool)

  datatype Status = Status(activity: Activity, history: seq<Entry>)

  /** The manager's memory, its state file, and the operations that currently run. */
  datatype State = State(status: Status, reserved: bool, file: Status, jobs: seq<Job>, nextId: nat)

  const NEW_STATUS := Status(Idle, [])
  const NEW_MANAGER := State(NEW_STATUS, false, NEW_STATUS, [], 0)

  predicate Busy(s: State) { s.status.activity.Checking? || s.status.activity.Updating? || s.reserved }

  /** `attachCleanup`: whatever entry is newest gets the cleanup result. */
  function Attached(h: seq<Entry>): seq<Entry> { if h == [] then h else [h[0].(cleaned := true)] + h[1..] }

  /** One locked section, with whether its state write succeeds. */
  datatype Action =
    | Begin(kind: Kind, stored: bool)
    | Progress(id: nat, stored: bool)
    | Record(id: nat, stored: bool)
    | Attach(id: nat, stored: bool)
    | End(id: nat, failed: bool, stored: bool)
    | Resync(stored: bool)
    | Crash(stored: bool)

  function JobIndex(jobs: seq<Job>, id: nat): (i: nat)
    ensures i <= |jobs| && (i < |jobs| ==> jobs[i].id == id)
  {
    if jobs == [] || jobs[0].id == id then 0 else 1 + JobIndex(jobs[1..], id)
  }

  predicate HasJob(s: State, id: nat) { JobIndex(s.jobs, id) < |s.jobs| }

  function JobOf(s: State, id: nat): Job
    requires HasJob(s, id)
  {
    s.jobs[JobIndex(s.jobs, id)]
  }

  /** When a step can happen: a caller may always try to begin; the rest belongs to running operations. */
  predicate Enabled(s: State, a: Action) {
    match a
    case Begin(_, _) => true
    case Progress(id, _) => HasJob(s, id) && (JobOf(s, id).kind.Update? || JobOf(s, id).kind.Check?)
    case Record(id, _) => HasJob(s, id) && JobOf(s, id).kind.Update? && !JobOf(s, id).recorded
    case Attach(id, _) => HasJob(s, id) && JobOf(s, id).kind.Update? && JobOf(s, id).recorded
    case End(id, _, _) => HasJob(s, id)
    case Resync(_) => true
    case Crash(_) => true
  }

  function Stored(s: State, stored: bool): State { if stored then s.(file := s.status) else s }

  /** A refused caller changes nothing; one that is let in holds the manager before the lock is released. */
  function Begun(s: State, kind: Kind, stored: bool): State {
    if Busy(s) then s
    else
      var held := s.(jobs := s.jobs + [Job(kind, s.nextId, false)], nextId := s.nextId + 1);
      match kind
      case Check => Stored(held.(status := held.status.(activity := Checking)), stored)
      case Reservation => held.(reserved := true)
      case _ => Stored(held.(status := held.status.(activity := Updating)), stored)
  }

  function Ended(s: State, id: nat, failed: bool, stored: bool): State
    requires HasJob(s, id)
  {
    var i := JobIndex(s.jobs, id);
    var job := s.jobs[i];
    var rest := s.(jobs := s.jobs[..i] + s.jobs[i + 1..]);
    var activity := if failed then Failed else Idle;
    match job.kind
    case Check => Stored(rest.(status := rest.status.(activity := Idle)), stored)
    case Reservation => rest.(reserved := false)
    case Cleanup => Stored(rest.(status := Status(activity, Recorded(rest.status.history, Entry(job.id, true)))),
                           stored)
    case _ => Stored(rest.(status := rest.status.(activity := activity)), stored)
  }

  /** A new process: it reads the state file, and an operation found running there counts as failed. */
  function Restarted(s: State, stored: bool): State {
    var interrupted := s.file.activity.Checking? || s.file.activity.Updating?;
    var status := if interrupted then s.file.(activity := Failed) else s.file;
    var rebuilt := State(status, false, s.file, [], s.nextId);
    if interrupted then Stored(rebuilt, stored) else rebuilt
  }

  function Step(s: State, a: Action): State
    requires Enabled(s, a)
  {
    match a
    case Begin(kind, stored) => Begun(s, kind, stored)
    case Progress(_, stored) => Stored(s, stored)
    case Record(id, stored) =>
      var i := JobIndex(s.jobs, id);
      Stored(s.(status := s.status.(history := Recorded(s.status.history, Entry(id, false))),
                jobs := s.jobs[i := s.jobs[i].(recorded := true)]), stored)
    case Attach(_, stored) => Stored(s.(status := s.status.(history := Attached(s.status.history))), stored)
    case End(id, failed, stored) => Ended(s, id, failed, stored)
    case Resync(stored) => if Busy(s) then s else Stored(s, stored)
    case Crash(stored) => Restarted(s, stored)
  }

  // ---------- the invariant ----------

  /** The activity and the reservation flag say exactly which operation holds the manager. */
  ghost predicate Holds(s: State) {
    if s.jobs == [] then !Busy(s)
    else
      |s.jobs| == 1 &&
      match s.jobs[0].kind
      case Check => s.status.activity.Checking? && !s.reserved
      case Reservation => s.reserved && !s.status.activity.Checking? && !s.status.activity.Updating?
      case _ => s.status.activity.Updating? && !s.reserved
  }

  /** An update that has written its entry finds it newest. */
  ghost predicate OwnsNewest(s: State) {
    forall i | 0 <= i < |s.jobs| && s.jobs[i].recorded ::
      |s.status.history| > 0 && s.status.history[0].owner == s.jobs[i].id
  }

  ghost predicate Bounded(s: State) { |s.status.history| <= HISTORY_LIMIT && |s.file.history| <= HISTORY_LIMIT }

  ghost predicate Inv(s: State) { Holds(s) && OwnsNewest(s) && Bounded(s) }

  lemma InvInit()
    ensures Inv(NEW_MANAGER)
  {
  }

  lemma InvBegun(s: State, kind: Kind, stored: bool)
    requires Inv(s)
    ensures Inv(Begun(s, kind, stored))
  {
    hide JobIndex, Recorded, OwnsNewest, Bounded;
    if !Busy(s) {
      var after := Begun(s, kind, stored);
      assert s.jobs == [] && after.jobs == [Job(kind, s.nextId, false)];
      NothingRecorded(after);
      HistoryKept(s, kind, stored);
      assert Holds(after);
    }
  }

  lemma NothingRecorded(s: State)
    requires forall i | 0 <= i < |s.jobs| :: !s.jobs[i].recorded
    ensures OwnsNewest(s)
  {
  }

  lemma HistoryKept(s: State, kind: Kind, stored: bool)
    requires Bounded(s)
    ensures Bounded(Begun(s, kind, stored))
  {
  }

  /** The only operation is the one found. */
  lemma OnlyJob(s: State, id: nat)
    requires Inv(s) && HasJob(s, id)
    ensures JobIndex(s.jobs, id) == 0 && s.jobs == [JobOf(s, id)] && s.jobs[0].id == id
  {
  }

  lemma InvEnded(s: State, id: nat, failed: bool, stored: bool)
    requires Inv(s) && HasJob(s, id)
    ensures Inv(Ended(s, id, failed, stored))
  {
    OnlyJob(s, id);
    hide JobIndex;
    assert s.jobs[..0] + s.jobs[1..] == [];
  }

  lemma InvRecorded(s: State, id: nat, stored: bool)
    requires Inv(s) && Enabled(s, Record(id, stored))
    ensures Inv(Step(s, Record(id, stored)))
  {
    OnlyJob(s, id);
    hide JobIndex;
  }

  lemma InvAttached(s: State, id: nat, stored: bool)
    requires Inv(s) && Enabled(s, Attach(id, stored))
    ensures Inv(Step(s, Attach(id, stored)))
  {
    OnlyJob(s, id);
    hide JobIndex;
  }

  lemma InvRestarted(s: State, stored: bool)
    requires Inv(s)
    ensures Inv(Restarted(s, stored))
  {
  }

  lemma InvStored(s: State, stored: bool)
    requires Inv(s)
    ensures Inv(Stored(s, stored))
  {
  }

  lemma InvStep(s: State, a: Action)
    requires Inv(s) && Enabled(s, a)
    ensures Inv(Step(s, a))
  {
    hide Inv, Begun, Ended, Restarted, Recorded, Attached, JobIndex, Busy;
    match a
    case Begin(kind, stored) => InvBegun(s, kind, stored);
    case Progress(_, stored) => InvStored(s, stored);
    case Record(id, stored) => InvRecorded(s, id, stored);
    case Attach(id, stored) => InvAttached(s, id, stored);
    case End(id, failed, stored) => InvEnded(s, id, failed, stored);
    case Resync(stored) => InvStored(s, stored);
    case Crash(stored) => InvRestarted(s, stored);
  }

  // ---------- every run ----------

  ghost predicate Runs(s: State, actions: seq<Action>)
    decreases |actions|
  {
    actions == [] || (Enabled(s, actions[0]) && Runs(Step(s, actions[0]), actions[1..]))
  }

  ghost function After(s: State, actions: seq<Action>): State
    requires Runs(s, actions)
    decreases |actions|
  {
    if actions == [] then s else After(Step(s, actions[0]), actions[1..])
  }

  lemma {:induction false} InvAfter(s: State, actions: seq<Action>)
    requires Inv(s) && Runs(s, actions)
    ensures Inv(After(s, actions))
    decreases |actions|
  {
    if actions != [] {
      InvStep(s, actions[0]);
      InvAfter(Step(s, actions[0]), actions[1..]);
    }
  }

  /**
    After every interleaving: at most one operation holds the manager, the manager is busy exactly while one
    does, a recorded update's entry is the newest, and the history is bounded.
   */
  lemma MutualExclusion(actions: seq<Action>)
    requires Runs(NEW_MANAGER, actions)
    ensures var s := After(NEW_MANAGER, actions);
            |s.jobs| <= 1 && (Busy(s) <==> s.jobs != []) && |s.status.history| <= HISTORY_LIMIT
  {
    InvInit();
    InvAfter(NEW_MANAGER, actions);
  }

  /** In every run, the cleanup result of an update goes to the entry that update recorded, and nowhere else. */
  lemma CleanupGoesToOwnEntry(actions: seq<Action>, id: nat, stored: bool)
    requires Runs(NEW_MANAGER, actions) && Enabled(After(NEW_MANAGER, actions), Attach(id, stored))
    ensures var s := After(NEW_MANAGER, actions);
            var h, after := s.status.history, Step(s, Attach(id, stored)).status.history;
            h != [] && h[0].owner == id && after == h[0 := Entry(id, true)]
  {
    InvInit();
    InvAfter(NEW_MANAGER, actions);
    var s := After(NEW_MANAGER, actions);
    var h := s.status.history;
    assert JobOf(s, id) == s.jobs[0];
    assert [h[0].(cleaned := true)] + h[1..] == h[0 := Entry(id, true)];
  }

  /** A manager rebuilt after a crash, in whatever state that happened, is free for a new operation. */
  lemma CrashFrees(s: State, stored: bool, kind: Kind, storedToo: bool)
    ensures var after := Step(s, Crash(stored));
            !Busy(after) && after.jobs == [] && |Step(after, Begin(kind, storedToo)).jobs| == 1
  {
  }

  /** While an operation runs, every other caller is turned away without a trace. */
  lemma OthersRefused(actions: seq<Action>, kind: Kind, stored: bool)
    requires Runs(NEW_MANAGER, actions) && After(NEW_MANAGER, actions).jobs != []
    ensures Step(After(NEW_MANAGER, actions), Begin(kind, stored)) == After(NEW_MANAGER, actions)
  {
    InvInit();
    InvAfter(NEW_MANAGER, actions);
  }

  // ---------- how an operation takes and gives up the manager ----------

  /** A caller that finds the manager free holds it afterwards, and the state says for what. */
  lemma FreeIsTaken(actions: seq<Action>, kind: Kind, stored: bool)
    requires Runs(NEW_MANAGER, actions) && After(NEW_MANAGER, actions).jobs == []
    ensures var s := After(NEW_MANAGER, actions);
            var after := Step(s, Begin(kind, stored));
            after.jobs == [Job(kind, s.nextId, false)] && after.status.history == s.status.history && Busy(after) &&
            (kind.Reservation? ==> after.reserved && after.status == s.status && after.file == s.file) &&
            (kind.Check? ==> after.status.activity == Checking && !after.reserved) &&
            (kind.Update? || kind.Exclusive? || kind.Cleanup? ==>
               after.status.activity == Updating && !after.reserved) &&
            (!kind.Reservation? ==> after.file == if stored then after.status else s.file)
  {
    InvInit();
    InvAfter(NEW_MANAGER, actions);
  }

  /**
    An operation that ends leaves the manager free, with the outcome it had; only a cleanup adds to the history then,
    one finished entry of its own in front of the newest forty-nine.
   */
  lemma EndFrees(actions: seq<Action>, id: nat, failed: bool, stored: bool)
    requires Runs(NEW_MANAGER, actions) && Enabled(After(NEW_MANAGER, actions), End(id, failed, stored))
    ensures var s := After(NEW_MANAGER, actions);
            var kind, after, h := JobOf(s, id).kind, Step(s, End(id, failed, stored)), s.status.history;
            after.jobs == [] && !Busy(after) && !after.reserved &&
            (kind.Check? ==> after.status.activity == Idle) &&
            (kind.Update? || kind.Exclusive? || kind.Cleanup? ==>
               after.status.activity == if failed then Failed else Idle) &&
            (kind.Reservation? ==> after.status == s.status && after.file == s.file) &&
            (!kind.Reservation? ==> after.file == if stored then after.status else s.file) &&
            (!kind.Cleanup? ==> after.status.history == h) &&
            (kind.Cleanup? ==>
               |after.status.history| == (if |h| < 50 then |h| + 1 else 50) &&
               after.status.history[0] == Entry(id, true) &&
               forall k | 1 <= k < |after.status.history| :: after.status.history[k] == h[k - 1])
  {
    InvInit();
    InvAfter(NEW_MANAGER, actions);
    var s := After(NEW_MANAGER, actions);
    OnlyJob(s, id);
    hide JobIndex, After;
    assert s.jobs[..0] + s.jobs[1..] == [];
  }

  /** An update writes its own unfinished entry in front, keeps the newest forty-nine, and goes on. */
  lemma RecordKeeps(actions: seq<Action>, id: nat, stored: bool)
    requires Runs(NEW_MANAGER, actions) && Enabled(After(NEW_MANAGER, actions), Record(id, stored))
    ensures var s := After(NEW_MANAGER, actions);
            var after, h := Step(s, Record(id, stored)), s.status.history;
            after.jobs == [Job(Update, id, true)] && after.status.activity == Updating &&
            |after.status.history| == (if |h| < 50 then |h| + 1 else 50) &&
            after.status.history[0] == Entry(id, false) &&
            (forall k | 1 <= k < |after.status.history| :: after.status.history[k] == h[k - 1]) &&
            after.file == if stored then after.status else s.file
  {
    InvInit();
    InvAfter(NEW_MANAGER, actions);
    var s := After(NEW_MANAGER, actions);
    OnlyJob(s, id);
    hide JobIndex, After;
  }

  /** A new process knows what the file knew; what ran when the file was written counts as failed. */
  lemma CrashKeepsFile(s: State, stored: bool)
    ensures var after := Step(s, Crash(stored));
            after.status.history == s.file.history &&
            after.status.activity == (if s.file.activity in [Checking, Updating] then Failed else s.file.activity) &&
            (after.file == s.file || (stored && after.file == after.status))
  {
  }
}
