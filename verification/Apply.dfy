/**
  Activating a configuration (settings.go:784-1041, lifecycle.go:165-222 and 321-361): the transaction over
  the rendered file, the settings file and the expert file, its rollback, and the undo history. What the
  file system and the commands answer is part of the input of every operation.
 */
module UnboundApply {
  import opened Text
  import opened Seqs
  import opened UnboundSettings
  import opened UnboundRender
  import opened UnboundImport
  import opened Addresses
  import opened UnboundCustom
  import opened Writes

  /** Settings as a caller passes them and as settings.json keeps them: the reverse-zone list may be null. */
  datatype Proposal = Proposal(s: Settings, nullReverse: bool)

  predicate IsProposal(p: Proposal) { p.nullReverse ==> p.s.reverseZones == [] }

  /** The three files of one configuration generation; `None` is a missing file. */
  datatype Files = Files(config: Option<string>, settings: Option<Proposal>, custom: Option<string>)

  const DEFAULT_REVERSE: seq<ReverseZonePolicy> :=
    [ReverseZonePolicy(NETWORK_10, NXDOMAIN), ReverseZonePolicy(NETWORK_172, NXDOMAIN),
     ReverseZonePolicy(NETWORK_192, NXDOMAIN)]

  const DEFAULTS: Settings :=
    Settings(true, true, true, true, 1232, 1, true, 86400, 1800, 0, 86400, 2, "medium", IPV4_MODE, [], [],
             DEFAULT_REVERSE, [])

  /** A null list is read back as the default policies. */
  function Backfilled(p: Proposal): Settings { if p.nullReverse then p.s.(reverseZones := DEFAULT_REVERSE) else p.s }

  /** `Load`: the defaults when there is no file, an error when the stored record is not valid. */
  ghost function Loaded(ip: Netip, f: Files): Option<Settings> {
    match f.settings
    case None => Some(DEFAULTS)
    case Some(p) => if Valid(ip, Backfilled(p)) then Some(Backfilled(p)) else None
  }

  function CustomText(f: Files): string { match f.custom case None => "" case Some(text) => text }

  /** `activeConfig`: the file, or the rendering of the loaded settings when it is missing. */
  ghost function ActiveConfig(ip: Netip, words: Wording, f: Files, s: Settings): Option<string> {
    match f.config case Some(text) => Some(text) case None => Rendered(ip, words, s)
  }

  // ---------- outcomes ----------

  /** Writing content, or removing the file when there is none to keep. */
  function Put<T>(was: Option<T>, next: Option<T>, o: WriteOutcome): Option<T> {
    if next.Some? then Written(was, next, o)
    else if o.Done? then None else was
  }

  predicate PutOk<T>(was: Option<T>, next: Option<T>, o: WriteOutcome) { o.Done? || (next.None? && was.None?) }

  /** One round of the readiness poll, and whether the caller gives up in the pause after it. */
  datatype Probe = Probe(status: bool, query: bool, cancelled: bool)

  const READY_ATTEMPTS := 40

  type Probes = int -> Probe

  /** Some round succeeds before the rounds run out or the caller gives up. */
  predicate Ready(probes: Probes) {
    exists i | 0 <= i < READY_ATTEMPTS :: ReadyAt(probes, i)
  }

  predicate ReadyAt(probes: Probes, i: int) {
    probes(i).status && probes(i).query && forall j | 0 <= j < i :: !probes(j).cancelled
  }

  method WaitReady(probes: Probes) returns (ok: bool)
    ensures ok <==> Ready(probes)
    ensures ok <==> exists i | 0 <= i < 40 ::
                      probes(i).status && probes(i).query && forall j | 0 <= j < i :: !probes(j).cancelled
  {
    assert forall i :: ReadyAt(probes, i) <==>
                       probes(i).status && probes(i).query && forall j | 0 <= j < i :: !probes(j).cancelled;
    for attempt := 0 to READY_ATTEMPTS
      invariant forall i | 0 <= i < attempt :: !ReadyAt(probes, i)
      invariant forall i | 0 <= i < attempt :: !probes(i).cancelled
    {
      if probes(attempt).status {
        if probes(attempt).query {
          assert ReadyAt(probes, attempt);
          return true;
        }
      }
      if attempt == READY_ATTEMPTS - 1 {
        break;
      }
      if probes(attempt).cancelled {
        assert forall i | attempt < i < READY_ATTEMPTS :: !ReadyAt(probes, i);
        return false;
      }
    }
    return false;
  }

  /** Reading the history, writing the entry, and how many old entries can be removed before one fails. */
  datatype SnapshotOutcome = SnapshotOutcome(read: bool, write: WriteOutcome, reread: bool, removable: nat)

  datatype Outcomes = Outcomes(
    ipv6: bool,
    prepared: bool,
    candidateOk: bool,
    readable: bool,
    before: SnapshotOutcome,
    config: WriteOutcome,
    settings: WriteOutcome,
    custom: WriteOutcome,
    checked: bool,
    restarted: bool,
    probes: Probes,
    undoConfig: WriteOutcome,
    undoSettings: WriteOutcome,
    undoCustom: WriteOutcome,
    undoRestarted: bool,
    undoProbes: Probes,
    after: SnapshotOutcome
  )

  // ---------- the undo history ----------

  const HISTORY_LIMIT := 20

  datatype Snapshot = Snapshot(at: int, p: Proposal, config: string, custom: string)

  /** Newest first, each instant once. */
  ghost predicate Ordered(h: seq<Snapshot>) { forall i, j | 0 <= i < j < |h| :: h[i].at > h[j].at }

  predicate Proposals(h: seq<Snapshot>) { forall i | 0 <= i < |h| :: IsProposal(h[i].p) }

  /** No recorded state has a null reverse-zone list. */
  predicate NonNull(h: seq<Snapshot>) { forall i | 0 <= i < |h| :: !h[i].p.nullReverse }

  predicate Before(h: seq<Snapshot>, now: int) { forall i | 0 <= i < |h| :: h[i].at < now }

  /** The newest entry already holds this state; null and empty lists compare equal. */
  predicate IsNewest(h: seq<Snapshot>, p: Proposal, config: string, custom: string) {
    |h| > 0 && h[0].p.s == p.s && h[0].config == config && h[0].custom == custom
  }

  method PruneHistory(h: seq<Snapshot>, o: SnapshotOutcome) returns (r: seq<Snapshot>, ok: bool)
    ensures ok <==> o.reread && (|h| <= HISTORY_LIMIT || |h| - HISTORY_LIMIT <= o.removable)
    ensures ok ==> r == if |h| <= HISTORY_LIMIT then h else h[..HISTORY_LIMIT]
    ensures |r| <= |h| && (|h| <= HISTORY_LIMIT ==> r == h)
    ensures |h| > HISTORY_LIMIT ==> |r| >= HISTORY_LIMIT && r[..HISTORY_LIMIT] == h[..HISTORY_LIMIT]
    ensures Ordered(h) ==> Ordered(r)
    ensures forall x | x in r :: x in h
  {
    r, ok := h, false;
    if !o.reread {
      return;
    }
    if |h| <= HISTORY_LIMIT {
      return r, true;
    }
    var extra := |h| - HISTORY_LIMIT;
    for k := 0 to extra
      invariant r == h[..HISTORY_LIMIT] + h[HISTORY_LIMIT + k..] && k <= o.removable
    {
      if k == o.removable {
        return;
      }
      assert r[HISTORY_LIMIT..] == h[HISTORY_LIMIT + k..];
      r := r[..HISTORY_LIMIT] + r[HISTORY_LIMIT + 1..];
    }
    return r, true;
  }

  /** The history with a new state in front, unless the newest entry already is that state. */
  function Recorded(h: seq<Snapshot>, e: Snapshot): seq<Snapshot> {
    if IsNewest(h, e.p, e.config, e.custom) then h
    else if |h| < HISTORY_LIMIT then [e] + h else [e] + h[..HISTORY_LIMIT - 1]
  }

  /** The snapshot is written and old entries beyond the limit are gone. */
  predicate SnapshotOk(h: seq<Snapshot>, e: Snapshot, o: SnapshotOutcome) {
    o.read &&
    (IsNewest(h, e.p, e.config, e.custom) || (o.write.Done? && o.reread && |h| + 1 <= HISTORY_LIMIT + o.removable))
  }

  /** At most one entry was added in front, and the one before it is still there. */
  predicate Follows(h: seq<Snapshot>, r: seq<Snapshot>, e: Snapshot) {
    r == h || (|r| > 0 && r[0] == e && (h != [] ==> |r| > 1 && r[1] == h[0]))
  }

  /** The state is among the two newest entries. */
  predicate Undoable(h: seq<Snapshot>, e: Snapshot) { Holds(h, 0, e) || Holds(h, 1, e) }

  predicate Holds(h: seq<Snapshot>, i: nat, e: Snapshot) {
    i < |h| && h[i].p.s == e.p.s && h[i].config == e.config && h[i].custom == e.custom
  }

  lemma RecordedUndoable(h: seq<Snapshot>, e: Snapshot)
    ensures Holds(Recorded(h, e), 0, e)
  {
  }

  lemma FollowsUndoable(h: seq<Snapshot>, r: seq<Snapshot>, next: Snapshot, e: Snapshot)
    requires Holds(h, 0, e) && Follows(h, r, next)
    ensures Undoable(r, e)
  {
  }

  method RecordSnapshot(h: seq<Snapshot>, e: Snapshot, o: SnapshotOutcome) returns (r: seq<Snapshot>, ok: bool)
    requires Ordered(h) && Before(h, e.at)
    ensures Ordered(r) && Before(r, e.at + 1) && Follows(h, r, e)
    ensures Proposals(h) && IsProposal(e.p) ==> Proposals(r)
    ensures NonNull(h) && !e.p.nullReverse ==> NonNull(r)
    ensures ok <==> SnapshotOk(h, e, o)
    ensures ok ==> r == Recorded(h, e)
    ensures ok ==> |r| > 0 && r[0].p.s == e.p.s && r[0].config == e.config && r[0].custom == e.custom
    ensures ok && r != h ==> r[0] == e && |r| == (if |h| < 20 then |h| + 1 else 20) &&
                             forall k | 1 <= k < |r| :: r[k] == h[k - 1]
  {
    r, ok := h, false;
    if !o.read {
      return;
    }
    if |h| > 0 && h[0].p.s == e.p.s && h[0].config == e.config && h[0].custom == e.custom {
      return h, true;
    }
    if o.write.Refused? {
      return;
    }
    r := [e] + h;
    if o.write.Unsynced? {
      return;
    }
    r, ok := PruneHistory(r, o);
    AfterPruning(h, e, r);
  }

  lemma AfterPruning(h: seq<Snapshot>, e: Snapshot, r: seq<Snapshot>)
    requires |h| + 1 <= HISTORY_LIMIT ==> r == [e] + h
    requires |h| + 1 > HISTORY_LIMIT ==> |r| >= HISTORY_LIMIT && r[..HISTORY_LIMIT] == ([e] + h)[..HISTORY_LIMIT]
    requires Before(h, e.at) && forall x | x in r :: x in [e] + h
    ensures Before(r, e.at + 1) && Follows(h, r, e)
    ensures Proposals(h) && IsProposal(e.p) ==> Proposals(r)
    ensures NonNull(h) && !e.p.nullReverse ==> NonNull(r)
    ensures |h| >= HISTORY_LIMIT ==> ([e] + h)[..HISTORY_LIMIT] == [e] + h[..HISTORY_LIMIT - 1]
  {
    forall i | 0 <= i < |r| ensures r[i] == e || r[i] in h {
      assert r[i] in r && r[i] in [e] + h;
    }
    if |h| >= HISTORY_LIMIT {
      assert r[0] == r[..HISTORY_LIMIT][0] && r[1] == r[..HISTORY_LIMIT][1];
    }
  }

  // ---------- where an attempt stops ----------

  /** How far a failed attempt came. */
  datatype Stage = Untouched | AtConfig | AtSettings | AtCustom | Activated

  /** The first write of the three that reports a failure, if any. */
  function StageOf(was: Files, next: Files, o: Outcomes): Stage {
    if !PutOk(was.config, next.config, o.config) then AtConfig
    else if !PutOk(was.settings, next.settings, o.settings) then AtSettings
    else if !PutOk(was.custom, next.custom, o.custom) then AtCustom
    else Activated
  }

  /** The files a failed attempt leaves, by the stage it failed at. */
  function LeftBy(stage: Stage, was: Files, next: Files, o: Outcomes): Files {
    match stage
    case Untouched => was
    case AtConfig => Files(Put(was.config, next.config, o.config), was.settings, was.custom)
    case AtSettings =>
      Files(Put(next.config, was.config, o.undoConfig), Put(was.settings, next.settings, o.settings), was.custom)
    case AtCustom =>
      Files(Put(next.config, was.config, o.undoConfig), Put(next.settings, was.settings, o.undoSettings),
            Put(was.custom, next.custom, o.custom))
    case Activated =>
      Files(Put(next.config, was.config, o.undoConfig), Put(next.settings, was.settings, o.undoSettings),
            Put(next.custom, was.custom, o.undoCustom))
  }

  /** A restoring write that brings the old content back, even if it reports a failure. */
  predicate Restores<T>(was: Option<T>, o: WriteOutcome) { if was.Some? then !o.Refused? else o.Done? }

  /**
    What the file system must do for an attempt that fails at `stage` to leave no trace: the write that
    failed left its target alone, and every write already made was taken back.
   */
  predicate Settled(stage: Stage, was: Files, o: Outcomes) {
    match stage
    case Untouched => true
    case AtConfig => !o.config.Unsynced?
    case AtSettings => Restores(was.config, o.undoConfig) && !o.settings.Unsynced?
    case AtCustom => Restores(was.config, o.undoConfig) && Restores(was.settings, o.undoSettings) && !o.custom.Unsynced?
    case Activated =>
      Restores(was.config, o.undoConfig) && Restores(was.settings, o.undoSettings) &&
      (was.custom != None ==> !o.undoCustom.Refused?) && (was.custom == None ==> o.undoCustom.Done?)
  }

  /** All or nothing, exactly: a failed attempt to change all three files leaves them as they were iff it is settled. */
  lemma FailureIsClean(stage: Stage, was: Files, next: Files, o: Outcomes)
    requires stage == Untouched || stage == StageOf(was, next, o)
    requires next.config.Some? && next.settings.Some? && next.custom.Some?
    requires was.config != next.config && was.settings != next.settings && was.custom != next.custom
    ensures LeftBy(stage, was, next, o) == was <==> Settled(stage, was, o)
  {
  }

  /** The other direction needs no difference between the generations, and holds for a removed custom file too. */
  lemma SettledIsClean(stage: Stage, was: Files, next: Files, o: Outcomes)
    requires stage == Untouched || stage == StageOf(was, next, o)
    requires next.config.Some? && next.settings.Some? && Settled(stage, was, o)
    ensures LeftBy(stage, was, next, o) == was
  {
  }

  /** A rename whose directory sync fails leaves the first file of the new generation beside the old ones. */
  lemma UnsyncedRenameMixesGenerations(was: Files, next: Files, o: Outcomes)
    requires next.config.Some? && was.config != next.config && o.config == Unsynced
    ensures StageOf(was, next, o) == AtConfig && LeftBy(AtConfig, was, next, o) == was.(config := next.config)
    ensures LeftBy(AtConfig, was, next, o) != was
  {
  }

  // ---------- the manager ----------

  /** The expert text as it is stored. */
  ghost function TextFor(parse: RangeParser, content: string): string {
    match Normalized(parse, content) case None => "" case Some(text) => text
  }

  /** The generation a proposal and an expert text stand for. */
  ghost function Generation(ip: Netip, words: Wording, parse: RangeParser, p: Proposal, content: string): Files {
    var text := TextFor(parse, content);
    Files(Rendered(ip, words, p.s), Some(p), if text == "" then None else Some(text))
  }

  /** Settings, rendered file and expert file belong together. */
  ghost predicate Coherent(ip: Netip, words: Wording, f: Files) {
    f.settings.Some? ==>
      match Loaded(ip, f)
      case None => false
      case Some(s) => f.config == Rendered(ip, words, s) && NoConflicts(s, CustomText(f))
  }

  /** The checks that come before the present state is read. */
  ghost predicate Gates(ip: Netip, parse: RangeParser, p: Proposal, custom: string, o: Outcomes) {
    (p.s.networkMode in [DUAL_MODE, IPV6_MODE] ==> o.ipv6) && Valid(ip, p.s) && o.prepared && o.candidateOk &&
    match Normalized(parse, custom) case None => false case Some(text) => NoConflicts(p.s, text)
  }

  predicate Serves(o: Outcomes) { o.checked && o.restarted && Ready(o.probes) }

  /** A daemon that was already restarted on the new files was started again on the restored ones. */
  predicate RestartUndone(stage: Stage, o: Outcomes) {
    stage == Activated && o.checked ==> o.undoRestarted && Ready(o.undoProbes)
  }

  /** Settings that belong to the other two files and came from a guided change. */
  ghost predicate Whole(ip: Netip, words: Wording, f: Files) {
    Coherent(ip, words, f) && f.settings.Some? && !f.settings.value.nullReverse && f.custom != Some("")
  }

  /** One of the two newest entries stands for exactly these files. */
  ghost predicate Remembers(h: seq<Snapshot>, f: Files) { exists i | 0 <= i < 2 && i < |h| :: StateOf(h[i]) == f }

  /** No write renamed its file and then failed, and every write that takes one back succeeds. */
  predicate CleanFailure(o: Outcomes) {
    !o.config.Unsynced? && !o.settings.Unsynced? && !o.custom.Unsynced? && o.undoConfig.Done? && o.undoSettings.Done? &&
    o.undoCustom.Done?
  }

  /** The new files were checked before and after they were stored, and the daemon answers on them. */
  predicate Confirmed(o: Outcomes) {
    o.candidateOk && o.checked && o.restarted &&
    exists i | 0 <= i < 40 :: o.probes(i).status && o.probes(i).query
  }

  /** Nothing outside stands in the way, with `n` old entries in the history. */
  predicate Favourable(o: Outcomes, n: nat) {
    o.ipv6 && o.prepared && o.candidateOk && o.readable && o.before.read && o.before.write.Done? && o.before.reread &&
    o.before.removable >= n && o.config.Done? && o.settings.Done? && o.custom.Done? && o.checked && o.restarted &&
    o.probes(0).status && o.probes(0).query
  }

  /** The record and the text can be stored together. */
  ghost predicate Storable(ip: Netip, parse: RangeParser, p: Proposal, content: string) {
    Valid(ip, p.s) && Normalized(parse, content).Some? && NoConflicts(p.s, Normalized(parse, content).value)
  }

  class Manager {
    const ip: Netip
    const words: Wording
    const parse: RangeParser
    var config: Option<string>
    var settings: Option<Proposal>
    var custom: Option<string>
    var history: seq<Snapshot>
    /** What the daemon last started from, if that is known. */
    var started: Option<Files>

    constructor (ip: Netip, words: Wording, parse: RangeParser)
      requires ParsesWell(parse)
      ensures Stored() == Files(None, None, None) && history == [] && started == None
      ensures Usable() && this.ip == ip && this.words == words && this.parse == parse
    {
      this.ip, this.words, this.parse := ip, words, parse;
      config, settings, custom, history, started := None, None, None, [], None;
    }

    function Stored(): Files
      reads this
    {
      Files(config, settings, custom)
    }

    ghost predicate Usable()
      reads this
    {
      ParsesWell(parse) && Ordered(history) && Proposals(history) && (settings.Some? ==> IsProposal(settings.value))
    }

    method LoadSettings() returns (r: Option<Settings>)
      ensures r == Loaded(ip, Stored())
    {
      hide Valid;
      match settings {
        case None => return Some(DEFAULTS);
        case Some(p) =>
          var s := Backfilled(p);
          var ok := Validate(ip, s);
          return if ok then Some(s) else None;
      }
    }

    method LoadActiveConfig(s: Settings) returns (r: Option<string>)
      ensures r == ActiveConfig(ip, words, Stored(), s)
    {
      hide Rendered;
      match config {
        case Some(text) => return Some(text);
        case None => r := Render(ip, words, s);
      }
    }

    method RestoreFiles(was: Files, o: Outcomes) returns (ok: bool)
      modifies `config, `settings, `custom
      ensures config == Put(old(config), was.config, o.undoConfig)
      ensures settings == Put(old(settings), was.settings, o.undoSettings)
      ensures custom == Put(old(custom), was.custom, o.undoCustom)
      ensures ok <==>
              PutOk(old(config), was.config, o.undoConfig) && PutOk(old(settings), was.settings, o.undoSettings) &&
              PutOk(old(custom), was.custom, o.undoCustom)
    {
      ok := PutOk(config, was.config, o.undoConfig) && PutOk(settings, was.settings, o.undoSettings) &&
            PutOk(custom, was.custom, o.undoCustom);
      config := Put(config, was.config, o.undoConfig);
      settings := Put(settings, was.settings, o.undoSettings);
      custom := Put(custom, was.custom, o.undoCustom);
    }

    /** Puts the old files back and starts the daemon on them again. */
    method RollbackFailedApply(was: Files, o: Outcomes)
      modifies `config, `settings, `custom, `started
      ensures config == Put(old(config), was.config, o.undoConfig)
      ensures settings == Put(old(settings), was.settings, o.undoSettings)
      ensures custom == Put(old(custom), was.custom, o.undoCustom)
      ensures started == if o.undoRestarted && Ready(o.undoProbes) then Some(Stored()) else None
    {
      var restored := RestoreFiles(was, o);
      started := None;
      if o.undoRestarted {
        var ready := WaitReady(o.undoProbes);
        if ready {
          started := Some(Stored());
        }
      }
    }

    /** The state the first snapshot of an attempt records. */
    ghost function CurrentEntry(now: int): Snapshot
      reads this
    {
      match Loaded(ip, Stored())
      case None => Snapshot(now, Proposal(DEFAULTS, false), "", "")
      case Some(s) =>
        match ActiveConfig(ip, words, Stored(), s)
        case None => Snapshot(now, Proposal(s, false), "", CustomText(Stored()))
        case Some(text) => Snapshot(now, Proposal(s, false), text, CustomText(Stored()))
    }

    /** The snapshot of a new generation. */
    ghost function NewEntry(later: int, p: Proposal, content: string): Snapshot {
      match Rendered(ip, words, p.s)
      case None => Snapshot(later, p, "", "")
      case Some(text) => Snapshot(later, p, text, TextFor(parse, content))
    }

    /** The present state can be read and has been recorded. */
    ghost predicate Recordable(now: int, o: Outcomes)
      reads this
    {
      match Loaded(ip, Stored())
      case None => false
      case Some(s) => ActiveConfig(ip, words, Stored(), s).Some? && SnapshotOk(history, CurrentEntry(now), o.before)
    }

    lemma CurrentEntryIs(now: int)
      requires Whole(ip, words, Stored())
      ensures StateOf(CurrentEntry(now)) == Stored()
    {
      hide Valid, RenderedLines, NoConflicts;
      RenderedWhenValid(ip, words, settings.value.s);
    }

    lemma NewestIs(h: seq<Snapshot>, later: int, p: Proposal, content: string)
      requires Generation(ip, words, parse, p, content).config.Some? && !p.nullReverse
      ensures var r := Recorded(h, NewEntry(later, p, content));
              |r| > 0 && StateOf(r[0]) == Generation(ip, words, parse, p, content)
    {
      hide Rendered, Normalized;
    }

    lemma RecordableWhenFavourable(now: int, o: Outcomes)
      requires Loaded(ip, Stored()).Some? && Favourable(o, |history|)
      ensures Recordable(now, o)
    {
      hide Valid, RenderedLines, CurrentEntry;
      DefaultsAreValid(ip);
      RenderedWhenValid(ip, words, Loaded(ip, Stored()).value);
    }

    method RecordCurrent(now: int, o: Outcomes) returns (ok: bool)
      requires Usable() && Before(history, now)
      modifies `history
      ensures ok <==> o.readable && old(Recordable(now, o))
      ensures Ordered(history) && Before(history, now + 1) && Follows(old(history), history, old(CurrentEntry(now)))
      ensures Proposals(history) && (old(NonNull(history)) ==> NonNull(history))
      ensures ok ==> history == Recorded(old(history), old(CurrentEntry(now)))
    {
      hide Loaded, ActiveConfig, SnapshotOk, Recorded;
      ok := false;
      if !o.readable {
        return;
      }
      var current := LoadSettings();
      if current.None? {
        return;
      }
      var active := LoadActiveConfig(current.value);
      if active.None? {
        return;
      }
      var e := Snapshot(now, Proposal(current.value, false), active.value, CustomText(Stored()));
      history, ok := RecordSnapshot(history, e, o.before);
    }

    /** Writes the three files, then checks and restarts the daemon on them. */
    method Activate(next: Files, o: Outcomes) returns (ok: bool, stage: Stage)
      requires next.config.Some? && next.settings.Some?
      modifies `config, `settings, `custom, `started
      ensures stage == StageOf(old(Stored()), next, o)
      ensures ok <==> stage == Activated && Serves(o)
      ensures Stored() == if ok then next else LeftBy(stage, old(Stored()), next, o)
      ensures ok ==> started == Some(next)
      ensures !ok && RestartUndone(stage, o) ==> started == old(started) || started == Some(Stored())
    {
      hide Ready;
      ok := false;
      var was := Stored();
      config := Put(was.config, next.config, o.config);
      if !PutOk(was.config, next.config, o.config) {
        return false, AtConfig;
      }
      settings := Put(was.settings, next.settings, o.settings);
      if !PutOk(was.settings, next.settings, o.settings) {
        config := Put(config, was.config, o.undoConfig);
        return false, AtSettings;
      }
      custom := Put(was.custom, next.custom, o.custom);
      if !PutOk(was.custom, next.custom, o.custom) {
        config := Put(config, was.config, o.undoConfig);
        settings := Put(settings, was.settings, o.undoSettings);
        return false, AtCustom;
      }
      stage := Activated;
      if !o.checked {
        var restored := RestoreFiles(was, o);
        return;
      }
      if !o.restarted {
        RollbackFailedApply(was, o);
        return;
      }
      started := Some(Stored());
      var ready := WaitReady(o.probes);
      if !ready {
        RollbackFailedApply(was, o);
        return;
      }
      ok := true;
    }

    /**
      The transaction. On success all three files are the new generation and the daemon runs on it; otherwise
      the files are what the failed stage leaves.
     */
    method ApplyStateLocked(p: Proposal, content: string, now: int, later: int, o: Outcomes)
      returns (ok: bool, stage: Stage)
      requires Usable() && IsProposal(p) && Before(history, now) && now < later
      modifies this
      ensures var was, next := old(Stored()), Generation(ip, words, parse, p, content);
              var go := Gates(ip, parse, p, content, o) && o.readable && old(Recordable(now, o));
              (stage == if go then StageOf(was, next, o) else Untouched) &&
              (ok <==> go && stage == Activated && Serves(o)) &&
              Stored() == if ok then next else LeftBy(stage, was, next, o)
      ensures ok ==> started == Some(Stored())
      ensures !ok && Settled(stage, old(Stored()), o) ==> Stored() == old(Stored())
      ensures !ok && Settled(stage, old(Stored()), o) && old(started) == Some(old(Stored())) &&
              RestartUndone(stage, o) ==>
                started == old(started)
      ensures Usable() && Before(history, later + 1)
      ensures ok ==> Follows(Recorded(old(history), old(CurrentEntry(now))), history, NewEntry(later, p, content))
      ensures ok && SnapshotOk(Recorded(old(history), old(CurrentEntry(now))), NewEntry(later, p, content), o.after) ==>
                history == Recorded(Recorded(old(history), old(CurrentEntry(now))), NewEntry(later, p, content))
      ensures ok ==> Undoable(history, old(CurrentEntry(now)))
      ensures ok && old(Whole(ip, words, Stored())) ==> Remembers(history, old(Stored()))
      ensures ok && SnapshotOk(Recorded(old(history), old(CurrentEntry(now))), NewEntry(later, p, content), o.after) &&
              !p.nullReverse ==>
                |history| > 0 && StateOf(history[0]) == Stored()
      ensures ok ==> Confirmed(o) && Storable(ip, parse, p, content)
      ensures ok ==> config == Rendered(ip, words, p.s) && settings == Some(p) && custom != Some("") &&
                     Normalized(parse, content) == Some(CustomText(Stored()))
      ensures !ok && CleanFailure(o) ==> Stored() == old(Stored())
      ensures Storable(ip, parse, p, content) && old(Loaded(ip, Stored())).Some? && Favourable(o, |old(history)|) ==>
                ok
      ensures old(NonNull(history)) && !p.nullReverse ==> NonNull(history)
    {
      hide Gates, Generation, Recordable, Serves, CurrentEntry, Recorded, NewEntry, StageOf, LeftBy, Settled, Whole,
        Remembers, CleanFailure, Confirmed, Storable, Favourable, StateOf, Loaded, Undoable, Normalized, Rendered,
        SnapshotOk;
      ok, stage := false, Untouched;
      ghost var was, h0, e0 := Stored(), history, CurrentEntry(now);
      WhatIsPromised(p, content, now, later, o);
      NothingLeft(Stored(), o);
      var prepared := Prepare(p, content, o);
      if prepared.None? {
        return;
      }
      var recorded := RecordCurrent(now, o);
      if !recorded {
        return;
      }
      var next := prepared.value;
      RecordedUndoable(h0, e0);
      ghost var h := history;
      ok, stage := Activate(next, o);
      ActivationIs(ip, words, parse, p, content, stage, was, o);
      if ok {
        var recordedToo;
        var e := Snapshot(later, p, next.config.value, CustomText(next));
        EntryIs(e, p, content);
        history, recordedToo := RecordSnapshot(history, e, o.after);
        FollowsUndoable(h, history, e, e0);
        UndoableRemembers(history, e0, was);
      }
    }

    /** What the outcomes decide before anything is written. */
    lemma WhatIsPromised(p: Proposal, content: string, now: int, later: int, o: Outcomes)
      ensures var next := Generation(ip, words, parse, p, content);
              Gates(ip, parse, p, content, o) && Serves(o) ==>
                Confirmed(o) && Storable(ip, parse, p, content) && next.config == Rendered(ip, words, p.s) &&
                next.settings == Some(p) && next.custom != Some("") &&
                Normalized(parse, content) == Some(CustomText(next))
      ensures forall stage :: CleanFailure(o) ==> Settled(stage, Stored(), o)
      ensures Whole(ip, words, Stored()) ==> StateOf(CurrentEntry(now)) == Stored()
      ensures Storable(ip, parse, p, content) && Loaded(ip, Stored()).Some? && Favourable(o, |history|) ==>
                Gates(ip, parse, p, content, o) && o.readable && Recordable(now, o) && Serves(o) &&
                StageOf(Stored(), Generation(ip, words, parse, p, content), o) == Activated
      ensures Gates(ip, parse, p, content, o) && !p.nullReverse ==>
                forall h :: var r := Recorded(h, NewEntry(later, p, content));
                            |r| > 0 && StateOf(r[0]) == Generation(ip, words, parse, p, content)
    {
      hide *;
      AdmittedMeans(ip, words, parse, p, content, o);
      CleanSettles(Stored(), o);
      if Whole(ip, words, Stored()) {
        CurrentEntryIs(now);
      }
      if Storable(ip, parse, p, content) && Loaded(ip, Stored()).Some? && Favourable(o, |history|) {
        RecordableWhenFavourable(now, o);
        FavourableGoes(ip, words, parse, p, content, Stored(), |history|, o);
      }
      if Gates(ip, parse, p, content, o) && !p.nullReverse {
        forall h
          ensures var r := Recorded(h, NewEntry(later, p, content));
                  |r| > 0 && StateOf(r[0]) == Generation(ip, words, parse, p, content)
        {
          NewestIs(h, later, p, content);
        }
      }
    }

    /** Everything before the first file is touched. */
    method Prepare(p: Proposal, content: string, o: Outcomes) returns (next: Option<Files>)
      requires ParsesWell(parse)
      ensures next.Some? <==> Gates(ip, parse, p, content, o)
      ensures next.Some? ==> next.value == Generation(ip, words, parse, p, content) &&
                             next.value.config.Some? && next.value.settings.Some?
    {
      hide Valid, Rendered, Normalized, NoConflicts;
      if p.s.networkMode == DUAL_MODE || p.s.networkMode == IPV6_MODE {
        if !o.ipv6 {
          return None;
        }
      }
      var rendered := Render(ip, words, p.s);
      RenderedWhenValid(ip, words, p.s);
      if rendered.None? {
        return None;
      }
      var normalized := NormalizeCustom(parse, content);
      if normalized.None? {
        return None;
      }
      if !o.prepared {
        return None;
      }
      var free := ValidateGuidedConflicts(p.s, normalized.value);
      if !free || !o.candidateOk {
        return None;
      }
      return Some(Files(rendered, Some(p), if normalized.value == "" then None else normalized));
    }

    lemma EntryIs(e: Snapshot, p: Proposal, content: string)
      requires Generation(ip, words, parse, p, content).config.Some?
      requires e == Snapshot(e.at, p, Generation(ip, words, parse, p, content).config.value,
                             CustomText(Generation(ip, words, parse, p, content)))
      ensures e == NewEntry(e.at, p, content)
    {
      hide Rendered, Normalized;
    }

    // ---------- the four callers ----------

    /** Success installs the generation; a settled failure changes no file. */
    ghost predicate Kept(was: Files, next: Files, ok: bool, stage: Stage, o: Outcomes)
      reads this
    {
      if ok then Stored() == next && started == Some(next) else Settled(stage, was, o) ==> Stored() == was
    }

    method Apply(p: Proposal, now: int, later: int, o: Outcomes) returns (ok: bool, stage: Stage)
      requires Usable() && IsProposal(p) && Before(history, now) && now < later
      modifies this
      ensures Kept(old(Stored()), Generation(ip, words, parse, p, CustomText(old(Stored()))), ok, stage, o)
      ensures ok ==> (Coherent(ip, words, Stored()) <==> !p.nullReverse) && Undoable(history, old(CurrentEntry(now)))
      ensures Usable() && Before(history, later + 1) && (old(NonNull(history)) && !p.nullReverse ==> NonNull(history))
      ensures ok && old(Whole(ip, words, Stored())) ==> Remembers(history, old(Stored()))
      ensures (ok ==> Confirmed(o)) && (!ok && CleanFailure(o) ==> Stored() == old(Stored()))
      ensures ok ==> settings == Some(p) && config == Rendered(ip, words, p.s) &&
                     Normalized(parse, CustomText(old(Stored()))) == Some(CustomText(Stored()))
      ensures old(Storable(ip, parse, p, CustomText(Stored())) && Loaded(ip, Stored()).Some?) &&
              Favourable(o, |old(history)|) ==>
                ok
    {
      hide Generation, LeftBy, Settled, Coherent, Gates, CurrentEntry, Recordable, StageOf, Undoable, Whole, Remembers,
        CleanFailure, Confirmed, Storable, Favourable, Rendered, Normalized, Loaded;
      ok, stage := ApplyStateLocked(p, CustomText(Stored()), now, later, o);
      if ok {
        AdmittedCoherence(ip, words, parse, p, CustomText(old(Stored())), o);
      }
    }

    /** The settings stay as loaded; a null list on disk is thereby replaced by the default policies. */
    method ApplyCustom(content: string, now: int, later: int, o: Outcomes) returns (ok: bool, stage: Stage)
      requires Usable() && Before(history, now) && now < later
      modifies this
      ensures ok ==> old(Loaded(ip, Stored())).Some?
      ensures ok ==> var p := Proposal(old(Loaded(ip, Stored())).value, false);
                     Stored() == Generation(ip, words, parse, p, TextFor(parse, content))
      ensures !ok && Settled(stage, old(Stored()), o) ==> Stored() == old(Stored())
      ensures ok ==> Coherent(ip, words, Stored()) && started == Some(Stored())
      ensures ok ==> Undoable(history, old(CurrentEntry(now)))
      ensures Usable() && Before(history, later + 1) && (old(NonNull(history)) ==> NonNull(history))
      ensures ok && old(Whole(ip, words, Stored())) ==> Remembers(history, old(Stored()))
      ensures (ok ==> Confirmed(o)) && (!ok && CleanFailure(o) ==> Stored() == old(Stored()))
      ensures ok ==> Normalized(parse, TextFor(parse, content)) == Some(CustomText(Stored())) &&
                     settings == Some(Proposal(old(Loaded(ip, Stored())).value, false)) &&
                     config == Rendered(ip, words, settings.value.s)
    {
      hide Generation, LeftBy, Settled, Coherent, Gates, CurrentEntry, Recordable, StageOf, Undoable, Loaded,
        Normalized, Whole, Remembers, CleanFailure, Confirmed, Storable, Favourable, Rendered;
      ok, stage := false, Untouched;
      NothingToSettle(Stored(), o);
      var normalized := NormalizeCustom(parse, content);
      if normalized.None? {
        return;
      }
      var s := LoadSettings();
      if s.None? {
        return;
      }
      ok, stage := ApplyStateLocked(Proposal(s.value, false), normalized.value, now, later, o);
      if ok {
        AdmittedCoherence(ip, words, parse, Proposal(s.value, false), normalized.value, o);
      }
    }

    method ApplyBundle(p: Proposal, content: string, now: int, later: int, o: Outcomes) returns (ok: bool, stage: Stage)
      requires Usable() && IsProposal(p) && Before(history, now) && now < later
      modifies this
      ensures Kept(old(Stored()), Generation(ip, words, parse, p, TextFor(parse, content)), ok, stage, o)
      ensures ok ==> (Coherent(ip, words, Stored()) <==> !p.nullReverse) && Undoable(history, old(CurrentEntry(now)))
      ensures Usable() && Before(history, later + 1) && (old(NonNull(history)) && !p.nullReverse ==> NonNull(history))
      ensures ok && old(Whole(ip, words, Stored())) ==> Remembers(history, old(Stored()))
      ensures (ok ==> Confirmed(o)) && (!ok && CleanFailure(o) ==> Stored() == old(Stored()))
      ensures ok ==> settings == Some(p) && config == Rendered(ip, words, p.s) &&
                     Normalized(parse, TextFor(parse, content)) == Some(CustomText(Stored()))
      ensures Normalized(parse, content).Some? && Storable(ip, parse, p, TextFor(parse, content)) &&
              old(Loaded(ip, Stored())).Some? && Favourable(o, |old(history)|) ==>
                ok
    {
      hide Generation, LeftBy, Settled, Coherent, Gates, CurrentEntry, Recordable, StageOf, Undoable, Normalized,
        Whole, Remembers, CleanFailure, Confirmed, Storable, Favourable, Rendered, Loaded;
      ok, stage := false, Untouched;
      NothingToSettle(Stored(), o);
      var normalized := NormalizeCustom(parse, content);
      if normalized.None? {
        return;
      }
      ok, stage := ApplyStateLocked(p, normalized.value, now, later, o);
      if ok {
        AdmittedCoherence(ip, words, parse, p, normalized.value, o);
      }
    }

    /** Every step of an attempt succeeds. */
    ghost predicate Goes(p: Proposal, content: string, now: int, o: Outcomes)
      reads this
    {
      Gates(ip, parse, p, content, o) && o.readable && Recordable(now, o) && Serves(o) &&
      StageOf(Stored(), Generation(ip, words, parse, p, content), o) == Activated
    }

    /** A recorded state that was coherent comes back, in all three files, exactly when it is reversible. */
    method Restore(index: nat, now: int, later: int, o: Outcomes) returns (ok: bool, stage: Stage)
      requires Usable() && Before(history, now) && now < later
      modifies this
      ensures index < |old(history)| ==>
                (ok <==> old(Goes(history[index].p, history[index].custom, now, o)))
      ensures index < |old(history)| && Consistent(ip, words, old(history)[index]) ==>
                (ok && Stored() == StateOf(old(history)[index]) <==>
                 Reversible(parse, old(history)[index]) && Permits(old(history)[index].p.s, o) && o.readable &&
                 old(Recordable(now, o)) && Serves(o) &&
                 StageOf(old(Stored()), StateOf(old(history)[index]), o) == Activated)
      ensures index < |old(history)| ==>
                Kept(old(Stored()), Generation(ip, words, parse, old(history)[index].p, old(history)[index].custom),
                     ok, stage, o)
      ensures index >= |old(history)| ==> !ok && Stored() == old(Stored())
      ensures ok ==> (Coherent(ip, words, Stored()) <==> !old(history)[index].p.nullReverse)
      ensures ok ==> Undoable(history, old(CurrentEntry(now)))
      ensures Usable() && Before(history, later + 1) && (old(NonNull(history)) ==> NonNull(history))
      ensures ok && old(Whole(ip, words, Stored())) ==> Remembers(history, old(Stored()))
      ensures (ok ==> Confirmed(o)) && (!ok && CleanFailure(o) ==> Stored() == old(Stored()))
      ensures ok ==> settings == Some(old(history)[index].p) && config == Rendered(ip, words, settings.value.s) &&
                     Normalized(parse, old(history)[index].custom) == Some(CustomText(Stored()))
    {
      hide Generation, LeftBy, Settled, Coherent, Gates, CurrentEntry, Recordable, StageOf, Undoable, Normalized,
        Consistent, StateOf, Reversible, Permits, Serves, Whole, Remembers, CleanFailure, Confirmed, Storable,
        Favourable, Rendered, Loaded;
      ok, stage := false, Untouched;
      if index >= |history| {
        return;
      }
      var e := history[index];
      if Consistent(ip, words, e) {
        RestoresExactly(ip, words, parse, e, o);
      }
      ok, stage := ApplyStateLocked(e.p, e.custom, now, later, o);
      if ok {
        AdmittedCoherence(ip, words, parse, e.p, e.custom, o);
      }
    }

    /**
      Every run, whatever is applied or restored and however the commands end: as long as no attempt has left a
      trace, every state on disk is coherent exactly when its reverse-zone list is not null.
     */
    method Run(calls: seq<Call>) returns (steps: seq<StepResult>)
      requires Usable() && Aligned(ip, words, Stored())
      requires forall i | 0 <= i < |calls| :: WellPosed(calls[i])
      requires forall i, j | 0 <= i < j < |calls| :: calls[i].later < calls[j].now
      requires |calls| > 0 ==> Before(history, calls[0].now)
      modifies this
      ensures |steps| == |calls| && AllAligned(ip, words, old(Stored()), steps, calls)
    {
      hide Generation, LeftBy, Settled, Aligned, AllAligned, Undoable, WellPosed;
      steps := [];
      NothingYet(ip, words, Stored(), calls);
      for k := 0 to |calls|
        invariant Usable() && (k < |calls| ==> Before(history, calls[k].now)) && |steps| == k
        invariant AllAligned(ip, words, old(Stored()), steps, calls) && Stored() == Last(old(Stored()), steps)
      {
        assert WellPosed(calls[k]);
        var step := RunOne(calls[k]);
        AlignedSnoc(ip, words, old(Stored()), steps, step, calls);
        steps := steps + [step];
        assert k + 1 < |calls| ==> calls[k].later < calls[k + 1].now;
      }
    }

    method RunOne(c: Call) returns (step: StepResult)
      requires Usable() && WellPosed(c) && Before(history, c.now)
      modifies this
      ensures Usable() && Before(history, c.later + 1)
      ensures step.before == old(Stored()) && step.after == Stored()
      ensures step.ok ==> Aligned(ip, words, Stored())
      ensures !step.ok && Settled(step.stage, old(Stored()), c.o) ==> Stored() == old(Stored())
    {
      hide Generation, LeftBy, Settled, Coherent, Undoable, Loaded, Consistent, StateOf, Reversible, Permits, Goes;
      var was := Stored();
      var ok, stage;
      match c.request {
        case ApplySettings(p) =>
          GenerationHolds(ip, words, parse, p, CustomText(was));
          ok, stage := Apply(p, c.now, c.later, c.o);
        case ApplyExpert(content) =>
          if Loaded(ip, was).Some? {
            GenerationHolds(ip, words, parse, Proposal(Loaded(ip, was).value, false), TextFor(parse, content));
          }
          ok, stage := ApplyCustom(content, c.now, c.later, c.o);
        case ApplyBoth(p, content) =>
          GenerationHolds(ip, words, parse, p, TextFor(parse, content));
          ok, stage := ApplyBundle(p, content, c.now, c.later, c.o);
        case RestoreEntry(index) =>
          if index < |history| {
            GenerationHolds(ip, words, parse, history[index].p, history[index].custom);
          }
          ok, stage := Restore(index, c.now, c.later, c.o);
      }
      step := StepResult(was, Stored(), ok, stage);
    }
  }

  datatype Request =
    | ApplySettings(p: Proposal)
    | ApplyExpert(content: string)
    | ApplyBoth(p: Proposal, content: string)
    | RestoreEntry(index: nat)

  datatype Call = Call(request: Request, now: int, later: int, o: Outcomes)

  /** A call with what it found and left. */
  datatype StepResult = StepResult(before: Files, after: Files, ok: bool, stage: Stage)

  predicate HasNull(f: Files) { f.settings.Some? && f.settings.value.nullReverse }

  /** None of the first `n` calls failed and left a mixture of files. */
  ghost predicate NoTrace(steps: seq<StepResult>, calls: seq<Call>, n: nat)
    requires n <= |steps| <= |calls|
  {
    forall i | 0 <= i < n :: steps[i].ok || Settled(steps[i].stage, steps[i].before, calls[i].o)
  }

  /** Each call finds what the one before it left. */
  ghost predicate Chained(start: Files, steps: seq<StepResult>) {
    (steps != [] ==> steps[0].before == start) && forall i | 0 < i < |steps| :: steps[i].before == steps[i - 1].after
  }

  /** The parts of the state belong together, unless its list is null. */
  ghost predicate Aligned(ip: Netip, words: Wording, f: Files) { Coherent(ip, words, f) <==> !HasNull(f) }

  ghost predicate AllAligned(ip: Netip, words: Wording, start: Files, steps: seq<StepResult>, calls: seq<Call>)
    requires |steps| <= |calls|
  {
    Chained(start, steps) &&
    forall i | 0 <= i < |steps| :: NoTrace(steps, calls, i + 1) ==> Aligned(ip, words, steps[i].after)
  }

  function Last(start: Files, steps: seq<StepResult>): Files {
    if steps == [] then start else steps[|steps| - 1].after
  }

  lemma NothingYet(ip: Netip, words: Wording, start: Files, calls: seq<Call>)
    ensures AllAligned(ip, words, start, [], calls)
  {
  }

  lemma AlignedSnoc(ip: Netip, words: Wording, start: Files, steps: seq<StepResult>, step: StepResult, calls: seq<Call>)
    requires |steps| < |calls| && Aligned(ip, words, start) && AllAligned(ip, words, start, steps, calls)
    requires step.before == Last(start, steps) && (step.ok ==> Aligned(ip, words, step.after))
    requires !step.ok && Settled(step.stage, step.before, calls[|steps|].o) ==> step.after == step.before
    ensures AllAligned(ip, words, start, steps + [step], calls)
  {
    hide Settled, Aligned;
    var all := steps + [step];
    forall i | 0 <= i < |all| && NoTrace(all, calls, i + 1) ensures Aligned(ip, words, all[i].after) {
      if i < |steps| {
        NoTraceBefore(steps, step, calls, i + 1);
      } else {
        NoTraceBefore(steps, step, calls, i);
        assert all[i] == step;
        if i > 0 {
          assert NoTrace(steps, calls, i) && steps[i - 1] == all[i - 1];
        }
      }
    }
  }

  lemma NoTraceBefore(steps: seq<StepResult>, step: StepResult, calls: seq<Call>, n: nat)
    requires n <= |steps| < |calls|
    ensures NoTrace(steps + [step], calls, n + 1) ==> NoTrace(steps, calls, n)
    ensures NoTrace(steps + [step], calls, n) ==> NoTrace(steps, calls, n)
  {
    hide Settled;
    var all := steps + [step];
    forall i | 0 <= i < n ensures all[i] == steps[i] {
    }
    if NoTrace(all, calls, n + 1) || NoTrace(all, calls, n) {
      forall i | 0 <= i < n ensures steps[i].ok || Settled(steps[i].stage, steps[i].before, calls[i].o) {
        assert all[i] == steps[i];
      }
    }
  }

  lemma GenerationHolds(ip: Netip, words: Wording, parse: RangeParser, p: Proposal, content: string)
    ensures HasNull(Generation(ip, words, parse, p, content)) <==> p.nullReverse
  {
  }

  predicate WellPosed(c: Call) {
    c.now < c.later &&
    match c.request
    case ApplySettings(p) => IsProposal(p)
    case ApplyBoth(p, _) => IsProposal(p)
    case _ => true
  }

  lemma NothingLeft(was: Files, o: Outcomes)
    ensures LeftBy(Untouched, was, was, o) == was
    ensures forall next :: LeftBy(Untouched, was, next, o) == was
  {
  }

  lemma ActivationIs(ip: Netip, words: Wording, parse: RangeParser, p: Proposal, content: string, stage: Stage,
                     was: Files, o: Outcomes)
    requires Generation(ip, words, parse, p, content).config.Some?
    requires stage == StageOf(was, Generation(ip, words, parse, p, content), o)
    ensures var next := Generation(ip, words, parse, p, content);
            next.settings == Some(p) && (Settled(stage, was, o) ==> LeftBy(stage, was, next, o) == was) &&
            (LeftBy(stage, was, next, o).settings == was.settings || LeftBy(stage, was, next, o).settings == Some(p))
  {
    hide Rendered, Normalized;
    var next := Generation(ip, words, parse, p, content);
    if Settled(stage, was, o) {
      SettledIsClean(stage, was, next, o);
    }
  }

  lemma UndoableRemembers(h: seq<Snapshot>, e: Snapshot, f: Files)
    requires Undoable(h, e)
    ensures StateOf(e) == f ==> Remembers(h, f)
  {
    assert Holds(h, 0, e) ==> StateOf(h[0]) == StateOf(e);
    assert Holds(h, 1, e) ==> StateOf(h[1]) == StateOf(e);
  }

  lemma AdmittedMeans(ip: Netip, words: Wording, parse: RangeParser, p: Proposal, content: string, o: Outcomes)
    ensures var next := Generation(ip, words, parse, p, content);
            Gates(ip, parse, p, content, o) ==>
              Storable(ip, parse, p, content) && next.config == Rendered(ip, words, p.s) && next.config.Some? &&
              next.settings == Some(p) && next.custom != Some("") &&
              Normalized(parse, content) == Some(CustomText(next)) && (Serves(o) ==> Confirmed(o))
  {
    hide Valid, RenderedLines, Normalized, NoConflicts;
    RenderedWhenValid(ip, words, p.s);
  }

  lemma CleanSettles(was: Files, o: Outcomes)
    ensures forall stage :: CleanFailure(o) ==> Settled(stage, was, o)
  {
  }

  lemma FavourableGoes(ip: Netip, words: Wording, parse: RangeParser, p: Proposal, content: string, was: Files, n: nat,
                       o: Outcomes)
    requires Storable(ip, parse, p, content) && Favourable(o, n)
    ensures Gates(ip, parse, p, content, o) && o.readable && Serves(o)
    ensures StageOf(was, Generation(ip, words, parse, p, content), o) == Activated
  {
    hide Valid, Rendered, Normalized, NoConflicts;
    assert ReadyAt(o.probes, 0);
  }

  /** The record that stands in for a missing settings file is valid. */
  lemma DefaultsAreValid(ip: Netip)
    ensures Valid(ip, DEFAULTS)
  {
    assert DEFAULTS.forwardZones == [] && DEFAULTS.localZones == [] && DEFAULTS.privateDomains == [];
  }

  /** The bounds of each number, and the words that name a profile or a mode. */
  lemma Bounds(ip: Netip, v: int, w: int, name: string)
    ensures Valid(ip, DEFAULTS.(ednsBufferSize := v)) <==> 512 <= v <= 4096
    ensures Valid(ip, DEFAULTS.(logVerbosity := v)) <==> 0 <= v <= 1
    ensures Valid(ip, DEFAULTS.(serveExpiredTtl := v)) <==> 3600 <= v <= 604800
    ensures Valid(ip, DEFAULTS.(serveExpiredClientTimeout := v)) <==> 0 <= v <= 5000
    ensures Valid(ip, DEFAULTS.(threads := v)) <==> 1 <= v <= 32
    ensures Valid(ip, DEFAULTS.(cacheMinTtl := v, cacheMaxTtl := w)) <==>
            0 <= v <= 3600 && 60 <= w <= 604800 && v <= w
    ensures Valid(ip, DEFAULTS.(resourceProfile := name)) <==> name == "small" || name == "medium" || name == "large"
    ensures Valid(ip, DEFAULTS.(networkMode := name)) <==> name == "ipv4" || name == "dual" || name == "ipv6"
  {
    DefaultsAreValid(ip);
    hide ValidForwardZones, ValidPrivateDomains, ValidLocalZones, ValidReverseZones;
  }

  /** How much a valid record may hold. */
  lemma Capacities(ip: Netip, s: Settings)
    requires Valid(ip, s)
    ensures |s.forwardZones| <= 32 && |s.privateDomains| <= 32 && |s.localZones| <= 16 && |s.reverseZones| <= 3
    ensures forall i | 0 <= i < |s.forwardZones| :: 1 <= |s.forwardZones[i].servers| <= 8
    ensures forall i | 0 <= i < |s.localZones| :: 1 <= |s.localZones[i].hosts| <= 128
    ensures TargetCount(s.forwardZones) <= 32 && |AllHosts(s.localZones)| <= 512
  {
    assert forall i | 0 <= i < |s.forwardZones| :: ValidForwardZone(ip, s.forwardZones[i]);
    hide ValidZoneName, ValidHosts, ValidServer;
  }

  lemma NothingToSettle(was: Files, o: Outcomes)
    ensures Settled(Untouched, was, o)
  {
  }

  lemma RenderedWhenValid(ip: Netip, words: Wording, s: Settings)
    ensures Rendered(ip, words, s).Some? <==> Valid(ip, s)
  {
    hide Valid, RenderedLines;
  }

  // ---------- coherence of a generation ----------

  lemma JoinedLength(a: seq<string>, b: seq<string>)
    ensures |JoinLines(a + b)| == |JoinLines(a)| + |JoinLines(b)|
  {
    JoinLinesConcat(a, b);
  }

  lemma SomeLinesHaveLength(lines: seq<string>)
    requires lines != []
    ensures |JoinLines(lines)| > 0
  {
  }

  /** Rendering with the default reverse policies is longer than rendering with none. */
  lemma DefaultsAreVisible(words: Wording, s: Settings)
    requires ProfileSizes(s.resourceProfile).Some? && s.reverseZones == []
    ensures JoinLines(RenderedLines(words, s.(reverseZones := DEFAULT_REVERSE))) != JoinLines(RenderedLines(words, s))
  {
    hide HeadLines, EntryLines, PrivateDomainLines, OptInLines, LocalZoneLines, ForwardZoneLines, JoinLines,
      FixedEntries, ProfileSizes, PolicyLines, Flat;
    var t := s.(reverseZones := DEFAULT_REVERSE);
    var a := HeadLines(words) + Flat(FixedEntries(s), EntryLines(words)) +
      Flat(s.privateDomains, PrivateDomainLines(words)) +
             Flat(s.forwardZones, OptInLines(words));
    var m := Flat(DEFAULT_REVERSE, PolicyLines(words));
    var b := Flat(s.localZones, LocalZoneLines(words)) + Flat(s.forwardZones, ForwardZoneLines(words));
    FixedIgnoresPolicies(s);
    NoPolicyLines(words);
    assert RenderedLines(words, t) == a + m + b;
    assert RenderedLines(words, s) == a + b;
    JoinedLength(a + m, b);
    JoinedLength(a, m);
    JoinedLength(a, b);
    SomeLinesHaveLength(m);
  }

  lemma FixedIgnoresPolicies(s: Settings)
    requires ProfileSizes(s.resourceProfile).Some?
    ensures FixedEntries(s.(reverseZones := DEFAULT_REVERSE)) == FixedEntries(s)
  {
    hide YesNo, Itoa, ProfileSizes;
  }

  lemma NoPolicyLines(words: Wording)
    ensures Flat([], PolicyLines(words)) == [] && Flat(DEFAULT_REVERSE, PolicyLines(words)) != []
  {
    var last := DEFAULT_REVERSE[2];
    assert ReverseNames(last.network) == ["168.192.in-addr.arpa."];
    var names := ReverseNames(last.network);
    assert Flat(names, ReverseNameLines(words, last.mode)) ==
           Flat(names[..0], ReverseNameLines(words, last.mode)) + ReverseNameLines(words, last.mode)(names[0]);
  }

  /** A generation is coherent exactly when its reverse-zone list is not null. */
  lemma GenerationCoherence(ip: Netip, words: Wording, parse: RangeParser, p: Proposal, content: string)
    requires Valid(ip, p.s) && IsProposal(p) && NoConflicts(p.s, TextFor(parse, content))
    ensures Coherent(ip, words, Generation(ip, words, parse, p, content)) <==> !p.nullReverse
  {
    hide Valid, Normalized, NoConflicts, RenderedLines, JoinLines;
    RenderedWhenValid(ip, words, p.s);
    if p.nullReverse && Valid(ip, Backfilled(p)) {
      ProfileOfValid(ip, p.s);
      DefaultsAreVisible(words, p.s);
    }
  }

  lemma ProfileOfValid(ip: Netip, s: Settings)
    requires Valid(ip, s)
    ensures ProfileSizes(s.resourceProfile).Some?
  {
    hide ValidForwardZones, ValidPrivateDomains, ValidLocalZones, ValidReverseZones;
  }

  lemma AdmittedCoherence(ip: Netip, words: Wording, parse: RangeParser, p: Proposal, content: string, o: Outcomes)
    requires Gates(ip, parse, p, content, o) && IsProposal(p)
    ensures Coherent(ip, words, Generation(ip, words, parse, p, content)) <==> !p.nullReverse
  {
    hide Valid, Normalized, NoConflicts, Coherent, Generation;
    GenerationCoherence(ip, words, parse, p, content);
  }

  // ---------- undoing ----------

  /** The files of a recorded state. */
  function StateOf(e: Snapshot): Files {
    Files(Some(e.config), Some(Proposal(e.p.s, false)), if e.custom == "" then None else Some(e.custom))
  }

  /** The entry records a state whose parts belong together. */
  ghost predicate Consistent(ip: Netip, words: Wording, e: Snapshot) {
    IsProposal(e.p) && Valid(ip, e.p.s) && Rendered(ip, words, e.p.s) == Some(e.config) && NoConflicts(e.p.s, e.custom)
  }

  /** The list is not null, and storing the expert text again changes nothing. */
  ghost predicate Reversible(parse: RangeParser, e: Snapshot) {
    !e.p.nullReverse && Normalized(parse, e.custom) == Some(e.custom)
  }

  /** The gates that ask the outside world. */
  predicate Permits(s: Settings, o: Outcomes) {
    (s.networkMode in [DUAL_MODE, IPV6_MODE] ==> o.ipv6) && o.prepared && o.candidateOk
  }

  /** What the current entry of a coherent state records is that state. */
  lemma CurrentIsConsistent(ip: Netip, words: Wording, f: Files, e: Snapshot)
    requires Coherent(ip, words, f) && f.settings.Some? && !f.settings.value.nullReverse && f.custom != Some("")
    requires e.p == f.settings.value && Some(e.config) == f.config && e.custom == CustomText(f)
    ensures Consistent(ip, words, e) && StateOf(e) == f
  {
    hide Valid, Rendered, NoConflicts;
  }

  /** Applying a recorded state again passes the gates and gives its files exactly when it is reversible. */
  lemma RestoresExactly(ip: Netip, words: Wording, parse: RangeParser, e: Snapshot, o: Outcomes)
    requires Consistent(ip, words, e)
    ensures Gates(ip, parse, e.p, e.custom, o) && Generation(ip, words, parse, e.p, e.custom) == StateOf(e) <==>
            Reversible(parse, e) && Permits(e.p.s, o)
  {
    hide Valid, Rendered, NoConflicts, Normalized;
  }

  /** A text that was stored is reversible exactly when no CR LF is left in it and it is within the limit. */
  lemma StoredTextReversible(parse: RangeParser, content: string, e: Snapshot)
    requires Normalized(parse, content) == Some(e.custom) && !e.p.nullReverse
    ensures Reversible(parse, e) <==> !HasCrlf(e.custom) && ByteLength(e.custom) <= MAX_CUSTOM_CONFIG_BYTES
  {
    hide Normalized, HasCrlf, ByteLength;
    NormalizeAgain(parse, content);
  }

  /** An undo that can never succeed: the state before the change held a text of full size. */
  lemma FullTextCannotBeUndone(ip: Netip, words: Wording, parse: RangeParser, content: string, e: Snapshot, o: Outcomes)
    requires Normalized(parse, content) == Some(e.custom) && ByteLength(content) == MAX_CUSTOM_CONFIG_BYTES
    requires !HasCrlf(content) && content != "" && !IsTail(content[|content| - 1])
    ensures !Gates(ip, parse, e.p, e.custom, o)
  {
    hide Normalized, HasCrlf, ByteLength, Valid, NoConflicts;
    FullTextRefusedLater(parse, content);
  }
}
