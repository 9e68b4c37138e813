/**
  Updating one service (updater/manager.go:422-671, 824-853 and 1070-1135): backup, attestation, volume
  ownership migration, selection, swap, verification and rollback. Every command takes its answer from an oracle,
  so what is proved holds for every pattern of failures; the log holds every command with its answer.
 */
module ServiceUpdate {
  import opened Text
  import opened UpdateHistory

  datatype Migration = Migration(volume: string, path: string, uid: int, gid: int)

  datatype Spec = Spec(name: string, backupPaths: seq<string>, migrations: seq<Migration>)

  /**
    One answer of the outside world: whether the command reported success, whether a failed command had its
    effect nevertheless, how many of the two state files a write replaced, and the text it printed.
   */
  datatype Answer = Answer(ok: bool, effect: bool, committed: nat, text: string)

  /** `CopyOut` and `CopyBack` stand for one path of a backup, `Pause` for the deadline after the next pause. */
  datatype Command =
    | InspectContainer
    | CopyOut(path: string)
    | WriteManifest
    | VerifyManifest
    | CopyBack(path: string)
    | Pull(image: string)
    | InspectImage(image: string)
    | Attest(service: string, image: string)
    | Stat(volume: string)
    | Chown(volume: string, owner: string)
    | WriteState(selected: map<string, string>)
    | ComposeUp(service: string)
    | RestartContainer
    | CheckHealth(service: string)
    | Pause

  datatype Call = Call(command: Command, answer: Answer)

  datatype Outcome = Failed | NoChange | Success | RolledBack | RollbackFailed

  datatype Entry = Entry(service: string, outcome: Outcome, fromId: string, toId: string)

  // ---------- volume owners ----------

  type Owners = map<string, string>

  datatype Previous = Previous(volume: string, owner: string, changed: bool)

  /** The owners after the changed records were put back, last one first. */
  function Undone(owners: Owners, records: seq<Previous>): Owners
    decreases |records|
  {
    if records == [] then owners
    else
      var last := records[|records| - 1];
      Undone(if last.changed then owners[last.volume := last.owner] else owners, records[..|records| - 1])
  }

  /** Whatever happened to the volume since it was recorded, undoing its record takes it back. */
  lemma UndoneStep(owners: Owners, records: seq<Previous>, volume: string, owner: string)
    requires volume in owners
    ensures Undone(owners[volume := owner], records + [Previous(volume, owners[volume], true)]) ==
            Undone(owners, records)
    ensures Undone(owners, records + [Previous(volume, owners[volume], false)]) == Undone(owners, records)
  {
    assert (records + [Previous(volume, owners[volume], true)])[..|records|] == records;
    assert (records + [Previous(volume, owners[volume], false)])[..|records|] == records;
    assert owners[volume := owner][volume := owners[volume]] == owners;
  }

  predicate ValidMigration(m: Migration) { m.volume != "" && m.path != "" && m.uid >= 0 && m.gid >= 0 }

  function TargetOwner(m: Migration): string { Itoa(m.uid) + ":" + Itoa(m.gid) }

  /** Every volume that is migrated has the owner its last migration asks for, and the others keep theirs. */
  ghost predicate Migrated(was: Owners, owners: Owners, migrations: seq<Migration>) {
    owners.Keys == was.Keys &&
    (forall i | 0 <= i < |migrations| ::
       migrations[i].volume in owners &&
       ((forall j | i < j < |migrations| :: migrations[j].volume != migrations[i].volume) ==>
          owners[migrations[i].volume] == Itoa(migrations[i].uid) + ":" + Itoa(migrations[i].gid))) &&
    (forall v | v in owners && (forall i | 0 <= i < |migrations| :: migrations[i].volume != v) :: owners[v] == was[v])
  }

  /** Every migration is well-formed and names a volume that exists. */
  ghost predicate Migratable(owners: Owners, migrations: seq<Migration>) {
    forall i | 0 <= i < |migrations| ::
      migrations[i].volume != "" && migrations[i].path != "" && migrations[i].uid >= 0 && migrations[i].gid >= 0 &&
      migrations[i].volume in owners
  }

  lemma NothingMigrated(owners: Owners)
    ensures Migrated(owners, owners, [])
  {
  }

  lemma MigratedNext(was: Owners, before: Owners, after: Owners, migrations: seq<Migration>, m: Migration)
    requires Migrated(was, before, migrations) && m.volume in before && after == before[m.volume := TargetOwner(m)]
    ensures Migrated(was, after, migrations + [m])
  {
    var all := migrations + [m];
    assert all[|migrations|] == m && forall i | 0 <= i < |migrations| :: all[i] == migrations[i];
  }

  // ---------- what a log shows ----------

  predicate Succeeded(c: Call, command: Command) { c.command == command && c.answer.ok }

  /** The selection reached both state files. */
  predicate Stored(c: Call, selected: map<string, string>) {
    Succeeded(c, WriteState(selected)) && c.answer.committed >= 2
  }

  /** No container was replaced or restarted between these positions. */
  ghost predicate Quiet(log: seq<Call>, from: nat, to: nat)
    requires from <= to <= |log|
  {
    forall i | from <= i < to :: !log[i].command.ComposeUp? && !log[i].command.RestartContainer?
  }

  ghost predicate Identified(log: seq<Call>, from: nat, to: nat, image: string, id: string)
    requires from <= to <= |log|
  {
    exists i | from <= i < to :: Succeeded(log[i], InspectImage(image)) && log[i].answer.text == id
  }

  ghost predicate Attested(log: seq<Call>, from: nat, to: nat, service: string, image: string)
    requires from <= to <= |log|
  {
    exists i | from <= i < to :: Succeeded(log[i], Attest(service, image))
  }

  /** The image was identified and attested, then selected and stored, and only then was a container touched. */
  ghost predicate ChosenFirst(log: seq<Call>, from: nat, service: string, selected: map<string, string>, image: string,
                              id: string)
  {
    exists k | from <= k < |log| ::
      Stored(log[k], selected) && Quiet(log, from, k) && Identified(log, from, k, image, id) &&
      Attested(log, from, k, service, image)
  }

  // What the steps of an update leave in the log, position by position.

  /** The command did what it was asked, and told what it was asked for. */
  predicate FineCall(c: Call) {
    c.answer.ok && (c.command.WriteState? ==> c.answer.committed >= 2) &&
    (c.command.InspectImage? ==> c.answer.text != "")
  }

  /** Nothing has gone wrong since then. */
  ghost predicate Fine(log: seq<Call>, from: nat) { forall i | from <= i < |log| :: FineCall(log[i]) }

  /** The running image is known, every path is copied out, and the manifest is written. */
  ghost predicate BackedUp(log: seq<Call>, from: nat, spec: Spec) {
    var n := |spec.backupPaths|;
    from + 1 + n < |log| && Succeeded(log[from], InspectContainer) &&
    (forall i | 0 <= i < n :: Succeeded(log[from + 1 + i], CopyOut(spec.backupPaths[i]))) &&
    Succeeded(log[from + 1 + n], WriteManifest)
  }

  /** After the backup the target is pulled, and the image it turned out to be is identified. */
  ghost predicate Pulled(log: seq<Call>, from: nat, spec: Spec, target: string, image: string, id: string) {
    var at := from + 2 + |spec.backupPaths|;
    at + 1 < |log| && Succeeded(log[at], Pull(target)) && log[at].answer.text == image &&
    Succeeded(log[at + 1], InspectImage(image)) && log[at + 1].answer.text == id
  }

  /** The manifest of the backup is verified, and every path is copied back. */
  ghost predicate CopiedBack(log: seq<Call>, from: nat, spec: Spec) {
    var n := |spec.backupPaths|;
    from + n < |log| && Succeeded(log[from], VerifyManifest) &&
    forall i | 0 <= i < n :: Succeeded(log[from + 1 + i], CopyBack(spec.backupPaths[i]))
  }

  /** The steps of a successful way back, one after the other; the last call before `end` is the health check. */
  ghost predicate WentBackAt(log: seq<Call>, k: nat, end: nat, spec: Spec, selected: map<string, string>) {
    var n := |spec.backupPaths|;
    k + 4 + n < end <= |log| && Stored(log[k], selected) && Succeeded(log[k + 1], ComposeUp(spec.name)) &&
    CopiedBack(log, k + 2, spec) && Succeeded(log[k + 3 + n], RestartContainer) &&
    Succeeded(log[end - 1], CheckHealth(spec.name))
  }

  ghost predicate WentBack(log: seq<Call>, from: nat, end: nat, spec: Spec, selected: map<string, string>) {
    exists k | from <= k :: WentBackAt(log, k, end, spec, selected)
  }

  /** Stored, then started, and the container looked at. */
  ghost predicate StartedAt(log: seq<Call>, k: nat, service: string, selected: map<string, string>, id: string) {
    k + 2 < |log| && Stored(log[k], selected) && Succeeded(log[k + 1], ComposeUp(service)) &&
    log[k + 1].answer.text == id && Succeeded(log[k + 2], InspectContainer)
  }

  ghost predicate Started(log: seq<Call>, from: nat, service: string, selected: map<string, string>, id: string) {
    exists k | from <= k :: StartedAt(log, k, service, selected, id)
  }

  lemma BackedUpStays(before: seq<Call>, log: seq<Call>, from: nat, spec: Spec, target: string, image: string,
                      id: string)
    requires before <= log && BackedUp(before, from, spec) && Pulled(before, from, spec, target, image, id)
    ensures BackedUp(log, from, spec) && Pulled(log, from, spec, target, image, id)
  {
  }

  lemma WentBackStays(before: seq<Call>, log: seq<Call>, from: nat, from': nat, end: nat, spec: Spec,
                      selected: map<string, string>)
    requires before <= log && from' <= from && WentBack(before, from, end, spec, selected)
    ensures WentBack(log, from', end, spec, selected)
  {
    var k :| from <= k && WentBackAt(before, k, end, spec, selected);
    assert WentBackAt(log, k, end, spec, selected);
  }

  lemma StartedStays(before: seq<Call>, log: seq<Call>, from: nat, service: string, selected: map<string, string>,
                     id: string)
    requires before <= log && Started(before, from, service, selected, id)
    ensures Started(log, from, service, selected, id)
  {
    var k :| from <= k && StartedAt(before, k, service, selected, id);
    assert StartedAt(log, k, service, selected, id);
  }

  lemma FineParts(before: seq<Call>, log: seq<Call>, from: nat, at: nat)
    requires before <= log && from <= at && Fine(log, from)
    ensures Fine(before, from) && Fine(before, at) && Fine(log, at)
  {
    hide FineCall;
    forall i | from <= i < |before| ensures FineCall(before[i]) { assert before[i] == log[i]; }
  }

  lemma ChosenStays(before: seq<Call>, log: seq<Call>, from: nat, service: string, selected: map<string, string>,
                    image: string, id: string)
    requires before <= log && ChosenFirst(before, from, service, selected, image, id)
    ensures ChosenFirst(log, from, service, selected, image, id)
  {
    var k :| from <= k < |before| && Stored(before[k], selected) && Quiet(before, from, k) &&
             Identified(before, from, k, image, id) && Attested(before, from, k, service, image);
    var i :| from <= i < k && Succeeded(before[i], InspectImage(image)) && before[i].answer.text == id;
    var j :| from <= j < k && Succeeded(before[j], Attest(service, image));
    assert Succeeded(log[i], InspectImage(image)) && Succeeded(log[j], Attest(service, image));
    assert Stored(log[k], selected) && Quiet(log, from, k);
  }

  /** How often a service is asked for its health; a manager without a number of its own asks 30 times. */
  type Attempts = n: int | n > 0 witness 30

  class Updater {
    const oracle: (int, Command) -> Answer
    /** The image requested for a service. */
    const target: string -> string
    const verifyAttempts: Attempts
    var tick: int
    /** The manager's own state, and what its two files hold. */
    var selected: map<string, string>
    var stateFile: map<string, string>
    var overrideFile: map<string, string>
    var history: seq<Entry>
    /** The world: the running container's image ID and the owner of every volume. */
    var container: string
    var owners: Owners
    ghost var log: seq<Call>

    constructor (oracle: (int, Command) -> Answer, target: string -> string, verifyAttempts: int, container: string,
                 owners: Owners)
      ensures this.oracle == oracle && this.target == target &&
              this.verifyAttempts == if verifyAttempts <= 0 then 30 else verifyAttempts
      ensures selected == map[] && stateFile == map[] && overrideFile == map[] && history == [] && log == []
      ensures this.container == container && this.owners == owners
    {
      this.oracle, this.target := oracle, target;
      this.verifyAttempts := if verifyAttempts <= 0 then 30 else verifyAttempts;
      this.container, this.owners := container, owners;
      tick, selected, stateFile, overrideFile, history, log := 0, map[], map[], map[], [], [];
    }

    method Ask(command: Command) returns (a: Answer)
      modifies `tick, `log
      ensures a == oracle(old(tick), command) && log == old(log) + [Call(command, a)]
    {
      a := oracle(tick, command);
      tick := tick + 1;
      log := log + [Call(command, a)];
    }

    /** Writes state.json, then updates.yaml; a failure may leave the first of them new. */
    method Persist() returns (ok: bool)
      modifies `tick, `stateFile, `overrideFile, `log
      ensures ok ==> stateFile == selected && overrideFile == selected
      ensures old(log) <= log && |log| == |old(log)| + 1 && log[|old(log)|].command == WriteState(selected)
      ensures ok == Stored(log[|old(log)|], selected) == FineCall(log[|old(log)|])
      ensures stateFile == old(stateFile) || stateFile == selected
      ensures overrideFile == old(overrideFile) || (overrideFile == selected && stateFile == selected)
    {
      var a := Ask(WriteState(selected));
      if a.committed >= 1 {
        stateFile := selected;
      }
      if a.committed >= 2 {
        overrideFile := selected;
      }
      ok := a.ok && a.committed >= 2;
    }

    method RecordHistory(e: Entry)
      modifies `history, `tick, `stateFile, `overrideFile, `log
      ensures old(log) <= log && |log| == |old(log)| + 1 && log[|old(log)|].command.WriteState?
      ensures history == Recorded(old(history), e)
      ensures stateFile == old(stateFile) || stateFile == selected
      ensures overrideFile == old(overrideFile) || overrideFile == selected
    {
      history := [e] + history;
      if |history| > HISTORY_LIMIT {
        assert ([e] + old(history))[..HISTORY_LIMIT] == [e] + old(history)[..HISTORY_LIMIT - 1];
        history := history[..HISTORY_LIMIT];
      }
      var persisted := Persist();
    }

    /** `selectImage`: a selection that cannot be stored is taken back, key and all. */
    method SelectImage(service: string, image: string) returns (ok: bool)
      modifies `selected, `tick, `stateFile, `overrideFile, `log
      ensures ok ==> selected == old(selected)[service := image] && stateFile == selected && overrideFile == selected
      ensures old(log) <= log && Quiet(log, |old(log)|, |log|)
      ensures ok ==> |log| == |old(log)| + 1 && Stored(log[|old(log)|], selected)
      ensures !ok ==> selected == old(selected) && !Fine(log, |old(log)|)
    {
      var existed := service in selected;
      var previous := if existed then selected[service] else "";
      selected := selected[service := image];
      ok := Persist();
      if !ok {
        assert !FineCall(log[|old(log)|]);
        if existed {
          selected := selected[service := previous];
        } else {
          selected := selected - {service};
        }
        var persisted := Persist();
        assert !FineCall(log[|old(log)|]);
      }
    }

    /** `chown` in a throw-away container; one that fails may have changed the owner already. */
    method ChangeVolumeOwnership(volume: string, owner: string) returns (ok: bool)
      modifies `tick, `owners, `log
      ensures old(log) <= log && Quiet(log, |old(log)|, |log|) && (!ok ==> !Fine(log, |old(log)|))
      ensures if ok then owners == old(owners)[volume := owner]
              else owners == old(owners) || (volume in owners && owners == old(owners)[volume := owners[volume]])
    {
      var a := Ask(Chown(volume, owner));
      ok := a.ok;
      if ok {
        owners := owners[volume := owner];
      } else if a.effect {
        owners := owners[volume := a.text];
      }
      assert log[|old(log)|] == Call(Chown(volume, owner), a);
    }

    method RestoreVolumeOwnership(records: seq<Previous>) returns (ok: bool)
      modifies `tick, `owners, `log
      ensures old(log) <= log && Quiet(log, |old(log)|, |log|) && (!ok ==> !Fine(log, |old(log)|))
      ensures ok ==> owners == Undone(old(owners), records)
    {
      var index := |records|;
      assert records[..|records|] == records;
      while index > 0
        invariant 0 <= index <= |records|
        invariant Undone(owners, records[..index]) == Undone(old(owners), records)
        invariant old(log) <= log && Quiet(log, |old(log)|, |log|)
      {
        index := index - 1;
        var record := records[index];
        assert records[..index + 1][..index] == records[..index];
        if record.changed {
          ghost var before := log;
          var changed := ChangeVolumeOwnership(record.volume, record.owner);
          if !changed {
            NotFine(log, |old(log)|, |before|);
            return false;
          }
        }
      }
      return true;
    }

    /** One migration; however it ends, undoing the records leads to the same owners as before. */
    method MigrateVolume(m: Migration, records: seq<Previous>) returns (ok: bool, records': seq<Previous>)
      modifies `tick, `owners, `log
      ensures Undone(owners, records') == Undone(old(owners), records)
      ensures old(log) <= log && Quiet(log, |old(log)|, |log|)
      ensures ok ==> m.volume in old(owners) && owners == old(owners)[m.volume := TargetOwner(m)]
      ensures !ok ==> !Fine(log, |old(log)|) || !Migratable(old(owners), [m])
    {
      hide Undone;
      ok, records' := false, records;
      if !ValidMigration(m) {
        assert [m][0] == m;
        return;
      }
      var stat := Ask(Stat(m.volume));
      assert log[|old(log)|] == Call(Stat(m.volume), stat);
      if !stat.ok || m.volume !in owners {
        assert [m][0] == m;
        return;
      }
      var owner := owners[m.volume];
      var record := Previous(m.volume, owner, owner != TargetOwner(m));
      UndoneStep(owners, records, m.volume, owner);
      records' := records + [record];
      ok := true;
      if record.changed {
        ghost var before := log;
        ok := ChangeVolumeOwnership(m.volume, TargetOwner(m));
        UndoneStep(old(owners), records, m.volume, owners[m.volume]);
        assert old(owners)[m.volume := owner] == old(owners);
        if !ok {
          NotFine(log, |old(log)|, |before|);
        }
      } else {
        assert owners[m.volume := owner] == owners;
      }
    }

    /**
      `migrateVolumeOwnership`. `restored` tells whether the restoring commands of a failed migration all
      succeeded; then the owners are what they were, also when a volume was migrated more than once.
     */
    method MigrateVolumeOwnership(spec: Spec) returns (ok: bool, records: seq<Previous>, restored: bool)
      modifies `tick, `owners, `log
      ensures old(log) <= log && Quiet(log, |old(log)|, |log|)
      ensures ok ==> Undone(owners, records) == old(owners) && Migrated(old(owners), owners, spec.migrations)
      ensures !ok && restored ==> owners == old(owners)
      ensures !ok ==> !Fine(log, |old(log)|) || !Migratable(old(owners), spec.migrations)
    {
      hide Undone, Migrated, Fine, Migratable;
      ok, records, restored := true, [], true;
      NothingMigrated(owners);
      NothingUndone(owners);
      assert spec.migrations[..0] == [];
      for i := 0 to |spec.migrations|
        invariant ok && restored && Undone(owners, records) == old(owners)
        invariant old(log) <= log && Quiet(log, |old(log)|, |log|)
        invariant Migrated(old(owners), owners, spec.migrations[..i])
      {
        ghost var before, log0 := owners, log;
        ok, records := MigrateVolume(spec.migrations[i], records);
        if !ok {
          ghost var failed := log;
          restored := RestoreVolumeOwnership(records);
          NoCause(failed, log, |old(log)|, |log0|, old(owners), before, spec.migrations, i);
          return false, [], restored;
        }
        MigratedNext(old(owners), before, owners, spec.migrations[..i], spec.migrations[i]);
        assert spec.migrations[..i + 1] == spec.migrations[..i] + [spec.migrations[i]];
      }
      assert spec.migrations[..|spec.migrations|] == spec.migrations;
    }

    /** `docker compose up`: the container may end up on any image, whatever the command reports. */
    method Compose(service: string) returns (ok: bool)
      modifies `tick, `container, `log
      ensures log == old(log) + [Call(ComposeUp(service), oracle(old(tick), ComposeUp(service)))]
      ensures ok == log[|old(log)|].answer.ok && (ok ==> container == log[|old(log)|].answer.text)
    {
      var a := Ask(ComposeUp(service));
      ok := a.ok;
      if a.ok || a.effect {
        container := a.text;
      }
    }

    method VerifyImageSwapped(candidate: string) returns (ok: bool)
      modifies `tick, `log
      ensures old(log) <= log && |log| == |old(log)| + 1
      ensures ok ==> container == candidate && Succeeded(log[|old(log)|], InspectContainer)
      ensures !ok ==> !FineCall(log[|old(log)|]) || container != candidate
    {
      var a := Ask(InspectContainer);
      ok := a.ok && container == candidate;
    }

    /** Some attempt succeeds before the attempts run out or the deadline passes. */
    method VerifyWithRetry(service: string) returns (ok: bool)
      modifies `tick, `log
      ensures old(log) <= log
      ensures ok ==> |log| > |old(log)| && Succeeded(log[|log| - 1], CheckHealth(service))
      ensures !ok ==> !Fine(log, |old(log)|)
    {
      for attempt := 0 to verifyAttempts
        invariant old(log) <= log
        invariant attempt > 0 ==> !Fine(log, |old(log)|)
      {
        ghost var at := |log|;
        var health := Ask(CheckHealth(service));
        assert log[at] == Call(CheckHealth(service), health);
        if health.ok {
          return true;
        }
        var pause := Ask(Pause);
        assert log[at] == Call(CheckHealth(service), health);
        if !pause.ok {
          return false;
        }
      }
      return false;
    }

    /** One `cp` per path, out of the container or back into it; stops at the first failure. */
    method CopyPaths(paths: seq<string>, back: bool) returns (ok: bool)
      modifies `tick, `log
      ensures old(log) <= log && Quiet(log, |old(log)|, |log|) && (!ok ==> !Fine(log, |old(log)|))
      ensures ok ==> |log| == |old(log)| + |paths| && forall i | 0 <= i < |paths| ::
                       Succeeded(log[|old(log)| + i], if back then CopyBack(paths[i]) else CopyOut(paths[i]))
    {
      for i := 0 to |paths|
        invariant old(log) <= log && Quiet(log, |old(log)|, |log|) && |log| == |old(log)| + i
        invariant forall k | 0 <= k < i ::
                    Succeeded(log[|old(log)| + k], if back then CopyBack(paths[k]) else CopyOut(paths[k]))
      {
        ghost var before := log;
        var copied := Ask(if back then CopyBack(paths[i]) else CopyOut(paths[i]));
        assert forall k | 0 <= k < |before| :: log[k] == before[k];
        if !copied.ok {
          assert !FineCall(log[|old(log)| + i]);
          return false;
        }
      }
      return true;
    }

    /** `backup`: the paths, then the manifest that lists them. */
    method Backup(spec: Spec) returns (ok: bool)
      modifies `tick, `log
      ensures old(log) <= log && Quiet(log, |old(log)|, |log|) && (!ok ==> !Fine(log, |old(log)|))
      ensures ok ==> |log| == |old(log)| + |spec.backupPaths| + 1 &&
                     Succeeded(log[|old(log)| + |spec.backupPaths|], WriteManifest) &&
                     forall i | 0 <= i < |spec.backupPaths| ::
                       Succeeded(log[|old(log)| + i], CopyOut(spec.backupPaths[i]))
    {
      ok := CopyPaths(spec.backupPaths, false);
      if !ok {
        return;
      }
      ghost var copied := log;
      var manifest := Ask(WriteManifest);
      assert log[|copied|] == Call(WriteManifest, manifest);
      assert forall i | 0 <= i < |copied| :: log[i] == copied[i];
      ok := manifest.ok;
      assert !ok ==> !FineCall(log[|copied|]);
    }

    /** The way back for the data: the manifest first, then the paths. */
    method RestoreData(spec: Spec) returns (ok: bool)
      modifies `tick, `log
      ensures old(log) <= log && Quiet(log, |old(log)|, |log|) && (!ok ==> !Fine(log, |old(log)|))
      ensures ok ==> |log| == |old(log)| + |spec.backupPaths| + 1 && CopiedBack(log, |old(log)|, spec)
    {
      var manifest := Ask(VerifyManifest);
      ghost var verified := log;
      assert log[|old(log)|] == Call(VerifyManifest, manifest);
      if !manifest.ok {
        assert !FineCall(log[|old(log)|]);
        return false;
      }
      ok := CopyPaths(spec.backupPaths, true);
      assert log[|old(log)|] == verified[|old(log)|];
      if !ok {
        NotFine(log, |old(log)|, |verified|);
      }
    }

    /** Recreates the container from the selection, puts its data back, restarts and checks it. */
    method StartAgain(spec: Spec) returns (ok: bool)
      requires |log| > 0 && Stored(log[|log| - 1], selected)
      modifies `tick, `container, `log
      ensures old(log) <= log && (ok ==> WentBackAt(log, |old(log)| - 1, |log|, spec, selected))
      ensures !ok ==> !Fine(log, |old(log)|)
    {
      hide Fine, FineCall, Quiet, CopiedBack, WentBackAt;
      ok := false;
      var up := Compose(spec.name);
      ghost var started := log;
      if !up {
        NotFineAt(log, |old(log)|, |log| - 1);
        return;
      }
      var copied := RestoreData(spec);
      if !copied {
        NotFine(log, |old(log)|, |started|);
        return;
      }
      ghost var restored := log;
      var restarted := Ask(RestartContainer);
      ghost var running := log;
      if !restarted.ok {
        NotFineAt(log, |old(log)|, |restored|);
        return;
      }
      ok := VerifyWithRetry(spec.name);
      if ok {
        BackAgain(restored, running, log, |old(log)| - 1, spec, selected);
      } else {
        NotFine(log, |old(log)|, |running|);
      }
    }

    method Rollback(spec: Spec, oldId: string, records: seq<Previous>) returns (ok: bool)
      modifies this
      ensures history == old(history)
      ensures ok ==> owners == Undone(old(owners), records)
      ensures ok ==> selected == old(selected)[spec.name := oldId] && stateFile == selected && overrideFile == selected
      ensures old(log) <= log && (ok ==> WentBack(log, |old(log)|, |log|, spec, selected))
      ensures !ok ==> !Fine(log, |old(log)|)
    {
      hide Undone, Fine, FineCall, Quiet, WentBackAt;
      ok := false;
      var restored := RestoreVolumeOwnership(records);
      if !restored {
        return;
      }
      ghost var undone := log;
      var chosen := SelectImage(spec.name, oldId);
      if !chosen {
        NotFine(log, |old(log)|, |undone|);
        return;
      }
      ghost var before := log;
      ok := StartAgain(spec);
      if !ok {
        NotFine(log, |old(log)|, |before|);
      }
    }

    /** Everything else before the container is touched: the candidate is attested, migrated to and selected. */
    method PrepareSwap(spec: Spec, image: string) returns (ok: bool, records: seq<Previous>, restored: bool)
      modifies `selected, `stateFile, `overrideFile, `tick, `owners, `log
      ensures ok ==> selected == old(selected)[spec.name := image] && stateFile == selected && overrideFile == selected
      ensures ok ==> Undone(owners, records) == old(owners) && |log| > |old(log)| && Stored(log[|log| - 1], selected) &&
                     Attested(log, |old(log)|, |log| - 1, spec.name, image)
      ensures ok ==> Migrated(old(owners), owners, spec.migrations)
      ensures old(log) <= log && Quiet(log, |old(log)|, |log|)
      ensures !ok ==> selected == old(selected) && (restored ==> owners == old(owners))
      ensures !ok ==> !Fine(log, |old(log)|) || !Migratable(old(owners), spec.migrations)
    {
      hide Undone, Migrated, Migratable, Fine, FineCall;
      ok, records, restored := false, [], true;
      ghost var at := |log|;
      var attested := Ask(Attest(spec.name, image));
      ghost var before := log;
      assert log[at] == Call(Attest(spec.name, image), attested);
      if !attested.ok {
        NotFineAt(log, at, at);
        return;
      }
      ok, records, restored := MigrateVolumeOwnership(spec);
      if !ok {
        if Migratable(old(owners), spec.migrations) {
          NotFine(log, at, |before|);
        }
        return;
      }
      ghost var migrated := log;
      ok := SelectImage(spec.name, image);
      if !ok {
        ghost var unselected := log;
        restored := RestoreVolumeOwnership(records);
        NotFineBefore(unselected, log, at, |migrated|);
      }
      assert Succeeded(log[at], Attest(spec.name, image));
    }

    /** The backup is written, and the target image is pulled and identified; nothing else changes. */
    method FindCandidate(spec: Spec) returns (ok: bool, image: string, candidate: string)
      modifies `tick, `log
      ensures old(log) <= log && Quiet(log, |old(log)|, |log|)
      ensures ok ==> Identified(log, |old(log)|, |log|, image, candidate) && candidate != ""
      ensures ok ==> BackedUp(log, |old(log)|, spec) &&
                     Pulled(log, |old(log)|, spec, target(spec.name), image, candidate)
      ensures !ok ==> !Fine(log, |old(log)|) || container == ""
    {
      hide Fine, FineCall;
      ghost var from := |log|;
      ok, image, candidate := false, target(spec.name), "";
      var inspected := Ask(InspectContainer);
      assert log[from] == Call(InspectContainer, inspected);
      if !inspected.ok || container == "" {
        if !inspected.ok { NotFineAt(log, from, from); }
        return;
      }
      ghost var known := log;
      var backup := Backup(spec);
      ghost var saved := log;
      if !backup {
        NotFine(log, from, |known|);
        return;
      }
      var pulled := Ask(Pull(image));
      ghost var fetched := log;
      if !pulled.ok {
        NotFineAt(log, from, |saved|);
        return;
      }
      image := pulled.text;
      var named := Ask(InspectImage(image));
      assert log[|fetched|] == Call(InspectImage(image), named);
      ok, candidate := named.ok && named.text != "", named.text;
      if ok {
        FoundBy(known, saved, fetched, log, from, spec, target(spec.name), image, candidate);
      } else {
        NotFineAt(log, from, |fetched|);
      }
    }

    /** Starts the selected image, looks at the container, and waits for it to be healthy. */
    method StartAndVerify(service: string, candidate: string) returns (healthy: bool)
      requires |log| > 0 && Stored(log[|log| - 1], selected)
      modifies `tick, `container, `log
      ensures old(log) < log && log[|old(log)|].command == ComposeUp(service)
      ensures healthy ==> container == candidate && StartedAt(log, |old(log)| - 1, service, selected, candidate) &&
                          Succeeded(log[|log| - 1], CheckHealth(service))
      ensures !healthy ==>
                !Fine(log, |old(log)|) || log[|old(log)|].answer.text != candidate
    {
      hide Fine, FineCall, Stored, StartedAt;
      var up := Compose(service);
      ghost var started := log;
      var swapped := false;
      healthy := false;
      if up {
        swapped := VerifyImageSwapped(candidate);
      }
      ghost var seen := log;
      if swapped {
        healthy := VerifyWithRetry(service);
      }
      if healthy {
        StartedBy(old(log), started, seen, log, service, selected, candidate);
      } else {
        SwapBroke(old(log), started, seen, log, candidate, up, swapped);
      }
    }

    /** Starts the selected image and checks it, or goes back. */
    method Swap(spec: Spec, oldId: string, image: string, candidate: string, records: seq<Previous>)
      returns (outcome: Outcome)
      requires stateFile == selected && overrideFile == selected
      requires |log| > 0 && Stored(log[|log| - 1], selected)
      modifies this
      ensures history == old(history)
      ensures outcome in [Success, RolledBack, RollbackFailed]
      ensures outcome == Success ==>
                container == candidate && selected == old(selected) && owners == old(owners) &&
                stateFile == selected && overrideFile == selected
      ensures outcome == RolledBack ==>
                owners == Undone(old(owners), records) && selected == old(selected)[spec.name := oldId] &&
                stateFile == selected && overrideFile == selected
      ensures old(log) < log && log[|old(log)|].command == ComposeUp(spec.name)
      ensures outcome == Success ==>
                StartedAt(log, |old(log)| - 1, spec.name, selected, candidate) &&
                Succeeded(log[|log| - 1], CheckHealth(spec.name))
      ensures outcome == RolledBack ==> WentBack(log, |old(log)|, |log|, spec, selected)
      ensures outcome != Success ==>
                !Fine(log, |old(log)|) || log[|old(log)|].answer.text != candidate
      ensures outcome == RollbackFailed ==> !Fine(log, |old(log)|)
    {
      hide Undone, Fine, FineCall, WentBack, Stored, StartedAt;
      ghost var from := |log|;
      var healthy := StartAndVerify(spec.name, candidate);
      if healthy {
        return Success;
      }
      ghost var checked := log;
      var back := Rollback(spec, oldId, records);
      BrokenStays(checked, log, from, candidate);
      if back {
        WentBackStays(log, log, |checked|, from, |log|, spec, selected);
        return RolledBack;
      }
      NotFineTwice(log, from, |checked|);
      return RollbackFailed;
    }

    /** The part of `update` for a candidate that is not running yet; `Failed` is a failure before the swap. */
    method Replace(spec: Spec, oldId: string, image: string, candidate: string)
      returns (outcome: Outcome, restored: bool)
      modifies this
      ensures history == old(history) && old(log) <= log
      ensures outcome in [Failed, Success, RolledBack, RollbackFailed]
      ensures outcome == Success ==>
                container == candidate && selected == old(selected)[spec.name := image] && stateFile == selected &&
                overrideFile == selected && Migrated(old(owners), owners, spec.migrations)
      ensures outcome == Success ==>
                |log| > |old(log)| && Succeeded(log[|log| - 1], CheckHealth(spec.name)) &&
                Installed(log, |old(log)|, spec.name, selected, image, candidate)
      ensures outcome == RolledBack ==>
                owners == old(owners) && selected == old(selected)[spec.name := oldId] && stateFile == selected &&
                overrideFile == selected && WentBack(log, |old(log)|, |log|, spec, selected)
      ensures outcome == Failed ==>
                container == old(container) && selected == old(selected) && (restored ==> owners == old(owners)) &&
                Quiet(log, |old(log)|, |log|)
      ensures outcome == Failed ==> !Fine(log, |old(log)|) || !Migratable(old(owners), spec.migrations)
      ensures outcome == RolledBack ==> !Fine(log, |old(log)|) ||
                                        OtherImage(log, |old(log)|, spec.name, candidate)
      ensures outcome == RollbackFailed ==> !Fine(log, |old(log)|)
    {
      hide Undone, Quiet, Attested, Stored, Succeeded, Fine, FineCall, WentBack, StartedAt, Migrated, Migratable,
        SelectedAt, OtherImage, Installed;
      outcome, restored := Failed, true;
      ghost var from := |log|;
      var ready, records;
      ready, records, restored := PrepareSwap(spec, image);
      if !ready {
        return;
      }
      ghost var chosen, selection := log, selected;
      outcome := Swap(spec, oldId, image, candidate, records);
      ReplacedBy(chosen, log, from, spec, selection, selected, image, candidate, outcome);
    }

    /** `update`. The outcome `Failed` is every failure before the container is replaced. */
    method Update(spec: Spec) returns (outcome: Outcome, image: string, candidate: string, restored: bool)
      modifies this
      ensures old(log) <= log
      ensures outcome == Success ==>
                container == candidate && selected == old(selected)[spec.name := image] && stateFile == selected &&
                overrideFile == selected && ChosenFirst(log, |old(log)|, spec.name, selected, image, candidate)
      ensures outcome == Success ==>
                Migrated(old(owners), owners, spec.migrations) &&
                Started(log, |old(log)|, spec.name, selected, candidate) && |log| > |old(log)| + 1 &&
                Succeeded(log[|log| - 2], CheckHealth(spec.name))
      ensures outcome == RolledBack ==>
                owners == old(owners) && selected == old(selected)[spec.name := old(container)] &&
                stateFile == selected && overrideFile == selected
      ensures outcome == RolledBack ==> |log| > |old(log)| && WentBack(log, |old(log)|, |log| - 1, spec, selected)
      ensures outcome != Failed ==>
                BackedUp(log, |old(log)|, spec) &&
                Pulled(log, |old(log)|, spec, target(spec.name), image, candidate)
      ensures outcome == Failed || outcome == NoChange ==>
                container == old(container) && selected == old(selected) && (restored ==> owners == old(owners)) &&
                Quiet(log, |old(log)|, |log|)
      ensures outcome == NoChange <==> outcome != Failed && candidate == old(container)
      ensures outcome == NoChange ==>
                owners == old(owners) && candidate == container &&
                Identified(log, |old(log)|, |log|, image, candidate)
      ensures outcome == Failed ==>
                !Fine(log, |old(log)|) || old(container) == "" || !Migratable(old(owners), spec.migrations)
      ensures outcome == RolledBack || outcome == RollbackFailed ==>
                !Fine(log[..|log| - 1], |old(log)|) ||
                (outcome == RolledBack && OtherImage(log, |old(log)|, spec.name, candidate))
      ensures history ==
              if outcome == Failed then old(history)
              else Recorded(old(history), Entry(spec.name, outcome, old(container), candidate))
    {
      hide *;
      ghost var from := |log|;
      outcome, restored := Failed, true;
      var oldId := container;
      var found;
      found, image, candidate := FindCandidate(spec);
      if !found {
        return;
      }
      ghost var known := log;
      if candidate == oldId {
        outcome := NoChange;
        RecordHistory(Entry(spec.name, NoChange, oldId, candidate));
        OneWriteMore(known, log, from, image, candidate);
        BackedUpStays(known, log, from, spec, target(spec.name), image, candidate);
        return;
      }
      outcome, restored := Replace(spec, oldId, image, candidate);
      ghost var replaced := log;
      NotFineTwice(log, from, |known|);
      if outcome == Failed {
        QuietThen(known, log, from);
        return;
      }
      RecordHistory(Entry(spec.name, outcome, oldId, candidate));
      BackedUpStays(known, log, from, spec, target(spec.name), image, candidate);
      RecordedAfter(known, replaced, log, from, spec, selected, image, candidate, outcome);
    }
  }

  /** The attested image was stored as the selection at that position, before any container was touched. */
  ghost predicate SelectedAt(log: seq<Call>, from: nat, k: nat, service: string, selected: map<string, string>,
                             image: string) {
    from <= k < |log| && Stored(log[k], selected) && Quiet(log, from, k) && Attested(log, from, k, service, image)
  }

  /** Selected, and started from there. */
  ghost predicate Installed(log: seq<Call>, from: nat, service: string, selected: map<string, string>, image: string,
                            id: string)
  {
    exists k :: SelectedAt(log, from, k, service, selected, image) && StartedAt(log, k, service, selected, id)
  }

  /** A start ended on another image than the one wanted. */
  ghost predicate OtherImage(log: seq<Call>, from: nat, service: string, candidate: string) {
    exists i | from <= i < |log| :: log[i].command == ComposeUp(service) && log[i].answer.text != candidate
  }

  lemma ReplacedBy(chosen: seq<Call>, log: seq<Call>, from: nat, spec: Spec, selection: map<string, string>,
                   selected: map<string, string>, image: string, candidate: string, outcome: Outcome)
    requires from < |chosen| && chosen < log && log[|chosen|].command == ComposeUp(spec.name)
    requires Quiet(chosen, from, |chosen|) && Attested(chosen, from, |chosen| - 1, spec.name, image)
    requires Stored(chosen[|chosen| - 1], selection)
    ensures StartedAt(log, |chosen| - 1, spec.name, selection, candidate) ==>
              Installed(log, from, spec.name, selection, image, candidate)
    ensures outcome == RolledBack && WentBack(log, |chosen|, |log|, spec, selected) ==>
              WentBack(log, from, |log|, spec, selected)
    ensures !Fine(log, |chosen|) || log[|chosen|].answer.text != candidate ==>
              !Fine(log, from) || OtherImage(log, from, spec.name, candidate)
    ensures !Fine(log, |chosen|) ==> !Fine(log, from)
  {
    hide WentBackAt, FineCall, Stored;
    var j :| from <= j < |chosen| - 1 && Succeeded(chosen[j], Attest(spec.name, image));
    assert Succeeded(log[j], Attest(spec.name, image));
    assert SelectedAt(log, from, |chosen| - 1, spec.name, selection, image);
    NotFineTwice(log, from, |chosen|);
  }

  /** What was true of the log when the entry was recorded is still true with the write behind it. */
  lemma RecordedAfter(known: seq<Call>, replaced: seq<Call>, log: seq<Call>, from: nat, spec: Spec,
                      selected: map<string, string>, image: string, candidate: string, outcome: Outcome)
    requires from <= |known| && known <= replaced <= log && |log| == |replaced| + 1 && |replaced| > 0
    requires Quiet(known, from, |known|) && Identified(known, from, |known|, image, candidate)
    ensures Installed(replaced, |known|, spec.name, selected, image, candidate) ==>
              ChosenFirst(log, from, spec.name, selected, image, candidate) &&
              Started(log, from, spec.name, selected, candidate)
    ensures WentBack(replaced, |known|, |replaced|, spec, selected) ==>
              WentBack(log, from, |replaced|, spec, selected)
    ensures OtherImage(replaced, |known|, spec.name, candidate) ==> OtherImage(log, from, spec.name, candidate)
    ensures log[..|log| - 1] == replaced && log[|log| - 2] == replaced[|replaced| - 1]
  {
    hide WentBack, StartedAt, ChosenFirst, Started, SelectedAt, Quiet, Identified;
    if Installed(replaced, |known|, spec.name, selected, image, candidate) {
      var k :| SelectedAt(replaced, |known|, k, spec.name, selected, image) &&
               StartedAt(replaced, k, spec.name, selected, candidate);
      SelectedMeans(known, replaced, from, k, spec.name, selected, image, candidate);
      ChosenStays(replaced, log, from, spec.name, selected, image, candidate);
      StartedSince(replaced, log, from, k, spec.name, selected, candidate);
    }
    if WentBack(replaced, |known|, |replaced|, spec, selected) {
      WentBackStays(replaced, log, |known|, from, |replaced|, spec, selected);
    }
    if i :| |known| <= i < |replaced| && replaced[i].command == ComposeUp(spec.name) &&
            replaced[i].answer.text != candidate {
      assert log[i] == replaced[i];
    }
  }

  lemma SelectedMeans(known: seq<Call>, log: seq<Call>, from: nat, k: nat, service: string,
                      selected: map<string, string>, image: string, id: string)
    requires from <= |known| && known <= log && Quiet(known, from, |known|)
    requires Identified(known, from, |known|, image, id) && SelectedAt(log, |known|, k, service, selected, image)
    ensures from <= k && ChosenFirst(log, from, service, selected, image, id)
  {
    var i :| from <= i < |known| && Succeeded(known[i], InspectImage(image)) && known[i].answer.text == id;
    var j :| |known| <= j < k && Succeeded(log[j], Attest(service, image));
    assert Succeeded(log[i], InspectImage(image)) && log[i].answer.text == id;
    assert Quiet(log, from, k) && Identified(log, from, k, image, id) && Attested(log, from, k, service, image);
  }

  lemma NotFine(log: seq<Call>, from: nat, at: nat)
    requires from <= at && !Fine(log, at)
    ensures !Fine(log, from)
  {
  }

  lemma NotFineTwice(log: seq<Call>, from: nat, at: nat)
    requires from <= at
    ensures !Fine(log, at) ==> !Fine(log, from)
  {
  }

  lemma NotFineAt(log: seq<Call>, from: nat, at: nat)
    requires from <= at < |log| && (!log[at].answer.ok || (log[at].command.InspectImage? && log[at].answer.text == ""))
    ensures !Fine(log, from)
  {
    assert !FineCall(log[at]);
  }

  lemma NotFineBefore(before: seq<Call>, log: seq<Call>, from: nat, at: nat)
    requires before <= log && from <= at && !Fine(before, at)
    ensures !Fine(log, from)
  {
    var i :| at <= i < |before| && !FineCall(before[i]);
    assert !FineCall(log[i]);
  }

  lemma NothingUndone(owners: Owners)
    ensures Undone(owners, []) == owners
  {
  }

  /** A migration fails only for one of these causes. */
  lemma NoCause(failed: seq<Call>, log: seq<Call>, from: nat, at: nat, was: Owners, before: Owners,
                migrations: seq<Migration>, i: nat)
    requires from <= at && failed <= log && i < |migrations| && Migrated(was, before, migrations[..i])
    requires !Fine(failed, at) || !Migratable(before, [migrations[i]])
    ensures !Fine(log, from) || !Migratable(was, migrations)
  {
    if !Fine(failed, at) {
      NotFineBefore(failed, log, from, at);
    } else {
      var m := [migrations[i]][0];
      assert migrations[i] == m;
    }
  }

  /** The positions of a finished way back. */
  lemma BackAgain(copied: seq<Call>, running: seq<Call>, log: seq<Call>, k: nat, spec: Spec,
                  selected: map<string, string>)
    requires copied <= running <= log && |running| == |copied| + 1 < |log|
    requires |copied| == k + 3 + |spec.backupPaths| && Stored(copied[k], selected)
    requires Succeeded(copied[k + 1], ComposeUp(spec.name)) && CopiedBack(copied, k + 2, spec)
    requires Succeeded(running[|copied|], RestartContainer) && Succeeded(log[|log| - 1], CheckHealth(spec.name))
    ensures WentBackAt(log, k, |log|, spec, selected)
  {
  }

  lemma FoundBy(known: seq<Call>, saved: seq<Call>, fetched: seq<Call>, log: seq<Call>, from: nat, spec: Spec,
                target: string, image: string, id: string)
    requires known <= saved <= fetched <= log && |known| == from + 1
    requires |saved| == from + 2 + |spec.backupPaths| && |fetched| == |saved| + 1 && |log| == |fetched| + 1
    requires Succeeded(known[from], InspectContainer) && Succeeded(saved[from + 1 + |spec.backupPaths|], WriteManifest)
    requires forall i | 0 <= i < |spec.backupPaths| :: Succeeded(saved[from + 1 + i], CopyOut(spec.backupPaths[i]))
    requires Succeeded(fetched[|saved|], Pull(target)) && fetched[|saved|].answer.text == image
    requires Succeeded(log[|fetched|], InspectImage(image)) && log[|fetched|].answer.text == id
    ensures BackedUp(log, from, spec) && Pulled(log, from, spec, target, image, id)
    ensures Identified(log, from, |log|, image, id)
  {
    assert forall i | 0 <= i < |saved| :: log[i] == saved[i];
  }

  lemma StartedBy(before: seq<Call>, started: seq<Call>, seen: seq<Call>, log: seq<Call>, service: string,
                  selected: map<string, string>, id: string)
    requires before < started < seen <= log && |started| == |before| + 1 && |before| > 0
    requires Stored(before[|before| - 1], selected) && Succeeded(started[|before|], ComposeUp(service))
    requires started[|before|].answer.text == id && Succeeded(seen[|started|], InspectContainer)
    ensures StartedAt(log, |before| - 1, service, selected, id)
  {
  }

  /** What stopped a swap before its health check passed. */
  lemma SwapBroke(before: seq<Call>, started: seq<Call>, seen: seq<Call>, checked: seq<Call>, candidate: string,
                  up: bool, swapped: bool)
    requires before < started <= seen <= checked && |started| == |before| + 1
    requires !up ==> !started[|before|].answer.ok
    requires up && !swapped ==>
               |seen| == |started| + 1 && (!FineCall(seen[|started|]) || started[|before|].answer.text != candidate)
    requires up && swapped ==> !Fine(checked, |seen|)
    ensures !Fine(checked, |before|) || checked[|before|].answer.text != candidate
  {
    assert checked[|before|] == started[|before|];
    if !up {
      assert !FineCall(checked[|before|]);
    } else if !swapped {
      assert checked[|started|] == seen[|started|];
    }
  }

  lemma BrokenStays(checked: seq<Call>, log: seq<Call>, from: nat, candidate: string)
    requires checked <= log && from < |checked|
    requires !Fine(checked, from) || checked[from].answer.text != candidate
    ensures !Fine(log, from) || log[from].answer.text != candidate
    ensures log[from] == checked[from]
  {
    if !Fine(checked, from) {
      NotFineBefore(checked, log, from, from);
    }
  }

  lemma StartedSince(before: seq<Call>, log: seq<Call>, from: nat, k: nat, service: string,
                     selected: map<string, string>, id: string)
    requires before <= log && from <= k && StartedAt(before, k, service, selected, id)
    ensures Started(log, from, service, selected, id)
  {
    assert StartedAt(log, k, service, selected, id);
  }

  lemma QuietThen(before: seq<Call>, log: seq<Call>, from: nat)
    requires from <= |before| && before <= log && Quiet(before, from, |before|) && Quiet(log, |before|, |log|)
    ensures Quiet(log, from, |log|)
  {
  }

  lemma IdentifiedStays(before: seq<Call>, log: seq<Call>, from: nat, image: string, id: string)
    requires from <= |before| && before <= log && Identified(before, from, |before|, image, id)
    ensures Identified(log, from, |before|, image, id) && Identified(log, from, |log|, image, id)
  {
    var i :| from <= i < |before| && Succeeded(before[i], InspectImage(image)) && before[i].answer.text == id;
    assert Succeeded(log[i], InspectImage(image));
  }

  lemma OneWriteMore(before: seq<Call>, log: seq<Call>, from: nat, image: string, id: string)
    requires from <= |before| && before <= log && |log| == |before| + 1 && log[|before|].command.WriteState?
    requires Quiet(before, from, |before|) && Identified(before, from, |before|, image, id)
    ensures Quiet(log, from, |log|) && Identified(log, from, |log|, image, id)
  {
    IdentifiedStays(before, log, from, image, id);
  }
}
