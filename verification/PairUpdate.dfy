/**
  The control-plane update (rootguard-updater/manager.go:231-339, 427-488 and 534-547): Core and WebApp are
  replaced together, verified together and taken back together. Every command takes its answer from an oracle, and
  the log holds every command with its answer.
 */
module PairUpdate {
  import opened UpdateHistory

  /** The reported result of a command, whether a failed one had its effect, and the text it printed. */
  datatype Answer = Answer(ok: bool, effect: bool, text: string)

  datatype Outcome = Failed | NoChange | Success | RolledBack | RollbackFailed

  /** An image, or an image ID, by service. */
  type Images = map<string, string>

  /** `Recreate` asks what `ComposeUp` made of one container; `Pause` whether the deadline lies beyond the pause. */
  datatype Command =
    | InspectContainer(service: string)
    | Pull(image: string)
    | InspectImage(image: string)
    | Version(image: string)
    | Attest(service: string, image: string)
    | WriteFile(images: Images)
    | Recreate(service: string)
    | ComposeUp
    | CheckHealth(service: string)
    | Pause

  datatype Call = Call(command: Command, answer: Answer)

  datatype Entry = Entry(outcome: Outcome, fromIds: Images, toIds: Images)

  const VERIFY_ATTEMPTS := 45

  // ---------- what a log shows ----------

  predicate Succeeded(c: Call, command: Command) { c.command == command && c.answer.ok }

  /** Between these positions the image was attested for the service, and its ID was read. */
  ghost predicate Chosen(log: seq<Call>, from: nat, to: nat, name: string, image: string, id: string)
    requires from <= to <= |log|
  {
    (exists i | from <= i < to :: Succeeded(log[i], Attest(name, image))) &&
    (exists i | from <= i < to :: Succeeded(log[i], InspectImage(image)) && log[i].answer.text == id)
  }

  ghost predicate AllChosen(log: seq<Call>, from: nat, to: nat, services: seq<string>, images: Images, ids: Images)
    requires from <= to <= |log|
  {
    forall i | 0 <= i < |services| ::
      services[i] in images && services[i] in ids &&
      Chosen(log, from, to, services[i], images[services[i]], ids[services[i]])
  }

  predicate Touches(c: Command) { c.WriteFile? || c.Recreate? || c.ComposeUp? }

  ghost predicate Untouched(log: seq<Call>, from: nat, to: nat)
    requires from <= to <= |log|
  {
    forall i | from <= i < to :: !Touches(log[i].command)
  }

  /** Every image was attested and identified before the override or a container was touched. */
  ghost predicate ChosenFirst(log: seq<Call>, from: nat, services: seq<string>, images: Images, ids: Images)
    requires from <= |log|
  {
    exists k | from <= k <= |log| :: Untouched(log, from, k) && AllChosen(log, from, k, services, images, ids)
  }

  /** The last commands were one pass over the services, in which each answered its health check. */
  ghost predicate EndsHealthy(log: seq<Call>, services: seq<string>) {
    |log| >= 2 * |services| &&
    forall i | 0 <= i < |services| ::
      var at := |log| - 2 * (|services| - i);
      Succeeded(log[at], InspectContainer(services[i])) && Succeeded(log[at + 1], CheckHealth(services[i]))
  }

  /** Two consecutive version queries showed the candidate to be older. */
  ghost predicate KnownOlder(older: (string, string) -> bool, log: seq<Call>, from: nat, id: string, oldId: string) {
    exists i | from <= i < |log| - 1 ::
      Succeeded(log[i], Version(id)) && Succeeded(log[i + 1], Version(oldId)) &&
      older(log[i].answer.text, log[i + 1].answer.text)
  }

  /** The command did what it was asked, and named the image it was asked for. */
  predicate FineCall(c: Call) { c.answer.ok && (c.command.InspectImage? ==> c.answer.text != "") }

  /** Nothing has gone wrong since then. */
  ghost predicate Fine(log: seq<Call>, from: nat) { forall i | from <= i < |log| :: FineCall(log[i]) }

  /** From there on the containers of all services are recreated, and then the command ends. */
  ghost predicate Recreates(log: seq<Call>, at: nat, services: seq<string>) {
    at + |services| < |log| && log[at + |services|].command == ComposeUp &&
    forall i | 0 <= i < |services| :: log[at + i].command == Recreate(services[i])
  }

  /** Every container comes up on its image. */
  ghost predicate ComesUpOn(log: seq<Call>, at: nat, services: seq<string>, ids: Images) {
    at + |services| <= |log| && forall i | 0 <= i < |services| ::
      services[i] in ids && log[at + i].answer.effect && log[at + i].answer.text == ids[services[i]]
  }

  /** The override was written there, the containers were recreated from it, and in the end all were healthy. */
  ghost predicate ReplacedAt(log: seq<Call>, k: nat, services: seq<string>, images: Images) {
    k < |log| && Succeeded(log[k], WriteFile(images)) && Recreates(log, k + 1, services) &&
    log[k + 1 + |services|].answer.ok && EndsHealthy(log, services) && k + 1 + |services| < |log| - 2 * |services|
  }

  ghost predicate Replaced(log: seq<Call>, from: nat, services: seq<string>, images: Images) {
    exists k | from <= k :: ReplacedAt(log, k, services, images)
  }

  /** Writing that override was at least attempted. */
  ghost predicate Tried(log: seq<Call>, from: nat, images: Images) {
    exists i | from <= i < |log| :: log[i].command == WriteFile(images)
  }

  /** The override was written, but the containers were not recreated on these images. */
  ghost predicate CameUpWrong(log: seq<Call>, from: nat, services: seq<string>, images: Images, ids: Images) {
    exists k | from <= k < |log| ::
      Succeeded(log[k], WriteFile(images)) && Recreates(log, k + 1, services) &&
      !ComesUpOn(log, k + 1, services, ids)
  }

  // ---------- pairs ----------

  ghost predicate Present(containers: Images, services: seq<string>) {
    forall i | 0 <= i < |services| :: services[i] in containers
  }

  /** An image is named for every service. */
  ghost predicate Complete(services: seq<string>, images: Images) {
    forall i | 0 <= i < |services| :: services[i] in images && images[services[i]] != ""
  }

  /** Every service runs the image recorded for it. */
  ghost predicate Runs(containers: Images, services: seq<string>, ids: Images) {
    forall i | 0 <= i < |services| ::
      services[i] in containers && services[i] in ids && containers[services[i]] == ids[services[i]]
  }

  /** Some service does not run its new image, and some service does not run its old one. */
  ghost predicate Mixed(containers: Images, services: seq<string>, oldIds: Images, ids: Images) {
    !Runs(containers, services, ids) && !Runs(containers, services, oldIds)
  }

  /** What an entry claims of the containers at the time it is written. */
  ghost predicate Truthful(e: Entry, containers: Images, services: seq<string>) {
    (e.outcome.Success? || e.outcome.NoChange? ==> Runs(containers, services, e.toIds)) &&
    (e.outcome.RolledBack? || e.outcome.NoChange? ==> Runs(containers, services, e.fromIds)) &&
    (Mixed(containers, services, e.fromIds, e.toIds) ==> e.outcome.RollbackFailed?)
  }

  class Updater {
    const oracle: (int, Command) -> Answer
    /** Whether a version is older than another, for the pairs where that can be told. */
    const older: (string, string) -> bool
    const services: seq<string>
    /** The image requested for a service, and whether images are used as they are. */
    const target: string -> string
    const skipPull: bool
    var tick: int
    var overrideFile: Images
    var history: seq<Entry>
    /** The world: the image ID every service's container runs. */
    var containers: Images
    ghost var log: seq<Call>
    /** The containers at the time each history entry was written. */
    ghost var witnessed: seq<Images>

    constructor (oracle: (int, Command) -> Answer, older: (string, string) -> bool, services: seq<string>,
                 target: string -> string, skipPull: bool, containers: Images)
      ensures this.oracle == oracle && this.older == older && this.services == services
      ensures this.target == target && this.skipPull == skipPull
      ensures this.containers == containers && overrideFile == map[] && history == [] && log == [] && Valid()
    {
      this.oracle, this.older, this.services := oracle, older, services;
      this.target, this.skipPull, this.containers := target, skipPull, containers;
      tick, overrideFile, history, log, witnessed := 0, map[], [], [], [];
    }

    /** Every entry of the history was true when it was written; in particular no mixed pair passed for a success. */
    ghost predicate Valid()
      reads this`history, this`witnessed
    {
      |witnessed| == |history| && forall k | 0 <= k < |history| :: Truthful(history[k], witnessed[k], services)
    }

    method Ask(command: Command) returns (a: Answer)
      modifies `tick, `log
      ensures a == oracle(old(tick), command) && tick == old(tick) + 1 && log == old(log) + [Call(command, a)]
    {
      a := oracle(tick, command);
      tick := tick + 1;
      log := log + [Call(command, a)];
    }

    method RecordHistory(e: Entry)
      requires Valid() && Truthful(e, containers, services)
      modifies `history, `witnessed
      ensures Valid() && history == Recorded(old(history), e)
    {
      hide Truthful;
      history, witnessed := [e] + history, [containers] + witnessed;
      if |history| > HISTORY_LIMIT {
        assert ([e] + old(history))[..HISTORY_LIMIT] == [e] + old(history)[..HISTORY_LIMIT - 1];
        history, witnessed := history[..HISTORY_LIMIT], witnessed[..HISTORY_LIMIT];
      }
    }

    /** Names an image for every service, or writes nothing; a failed write may still have replaced the file. */
    method WriteOverride(images: Images) returns (ok: bool)
      modifies `tick, `overrideFile, `log
      ensures ok ==> overrideFile == images && forall i | 0 <= i < |services| :: services[i] in images
      ensures old(log) <= log
      ensures ok ==> |log| == |old(log)| + 1 && Succeeded(log[|old(log)|], WriteFile(images))
      ensures Complete(services, images) ==>
                |log| == |old(log)| + 1 && log[|old(log)|].command == WriteFile(images) &&
                (!ok ==> !FineCall(log[|old(log)|]))
      ensures !ok ==> overrideFile == old(overrideFile) || overrideFile == images
    {
      for i := 0 to |services|
        invariant forall j | 0 <= j < i :: services[j] in images
      {
        if services[i] !in images || images[services[i]] == "" {
          return false;
        }
      }
      var a := Ask(WriteFile(images));
      if a.ok || a.effect {
        overrideFile := images;
      }
      return a.ok;
    }

    /** Any container may end up on any image, whatever the command reports. */
    method Compose(ghost expected: Images) returns (ok: bool)
      modifies `tick, `containers, `log
      ensures containers.Keys == old(containers).Keys && old(log) <= log
      ensures |log| == |old(log)| + |services| + 1 && Recreates(log, |old(log)|, services)
      ensures ok == log[|log| - 1].answer.ok
      ensures ComesUpOn(log, |old(log)|, services, expected) && Present(containers, services) ==>
                Runs(containers, services, expected)
    {
      hide AllAsked, ComesUpOn, Runs, Recreates;
      NoneAsked(log, |log|, containers, expected);
      assert services[..0] == [];
      for i := 0 to |services|
        invariant containers.Keys == old(containers).Keys && old(log) <= log && |log| == |old(log)| + i
        invariant AllAsked(log, |old(log)|, services[..i])
        invariant ComesUpOn(log, |old(log)|, services[..i], expected) && Present(containers, services[..i]) ==>
                    Runs(containers, services[..i], expected)
      {
        ghost var before, was := log, containers;
        var a := Ask(Recreate(services[i]));
        if services[i] in containers && a.effect {
          containers := containers[services[i] := a.text];
        }
        OneMoreAsked(before, log, |old(log)|, services, i);
        OneMoreUp(before, log, |old(log)|, services, i, was, containers, expected);
      }
      assert services[..|services|] == services;
      ghost var before := log;
      var done := Ask(ComposeUp);
      AllRecreated(before, log, |old(log)|, services, expected);
      return done.ok;
    }

    /** One pass: every container on the expected image, every health endpoint answering. */
    method Verify(expected: Images) returns (ok: bool)
      modifies `tick, `log
      ensures old(log) <= log
      ensures ok ==> Runs(containers, services, expected) && EndsHealthy(log, services) &&
                     |log| == |old(log)| + 2 * |services|
      ensures !ok ==> !Fine(log, |old(log)|) || !Runs(containers, services, expected)
    {
      hide EndsHealthy, Fine;
      NothingHealthy(log);
      for i := 0 to |services|
        invariant old(log) <= log && |log| == |old(log)| + 2 * i
        invariant Runs(containers, services[..i], expected) && EndsHealthy(log, services[..i])
      {
        ghost var before := log;
        var inspected := Ask(InspectContainer(services[i]));
        if !inspected.ok || services[i] !in containers {
          if !inspected.ok { NotFineAt(log, |old(log)|, |before|); }
          return false;
        }
        if services[i] !in expected || containers[services[i]] != expected[services[i]] {
          return false;
        }
        ghost var seen := log;
        var health := Ask(CheckHealth(services[i]));
        if !health.ok {
          NotFineAt(log, |old(log)|, |seen|);
          return false;
        }
        OneMoreHealthy(before, log, services[..i], services[i]);
        assert services[..i + 1] == services[..i] + [services[i]];
      }
      assert services[..|services|] == services;
      return true;
    }

    method VerifyWithRetry(expected: Images) returns (ok: bool)
      modifies `tick, `log
      ensures old(log) <= log
      ensures ok ==> Runs(containers, services, expected) && EndsHealthy(log, services) &&
                     |log| >= |old(log)| + 2 * |services|
      ensures !ok ==> !Fine(log, |old(log)|) || !Runs(containers, services, expected)
    {
      hide EndsHealthy, Fine, Runs;
      for attempt := 0 to VERIFY_ATTEMPTS
        invariant old(log) <= log
        invariant attempt > 0 ==> !Fine(log, |old(log)|) || !Runs(containers, services, expected)
      {
        ghost var before := log;
        ok := Verify(expected);
        if ok {
          return;
        }
        ghost var verified := log;
        var pause := Ask(Pause);
        if !Fine(verified, |before|) {
          NotFineBefore(verified, log, |old(log)|, |before|);
        }
        if !pause.ok {
          return false;
        }
      }
      return false;
    }

    /** The target image, pulled unless images are used as they are, and its ID. */
    method PullImage(name: string) returns (ok: bool, image: string, id: string)
      modifies `tick, `log
      ensures old(log) <= log
      ensures forall i | |old(log)| <= i < |log| :: log[i].command.Pull? || log[i].command.InspectImage?
      ensures ok ==> id != "" && |log| > |old(log)| && Succeeded(log[|log| - 1], InspectImage(image)) &&
                     log[|log| - 1].answer.text == id
      ensures ok ==> if skipPull then image == target(name)
                     else Succeeded(log[|old(log)|], Pull(target(name))) && log[|old(log)|].answer.text == image
      ensures !ok ==> !Fine(log, |old(log)|)
    {
      ok, image, id := false, target(name), "";
      ghost var before := log;
      if !skipPull {
        var pulled := Ask(Pull(image));
        before := log;
        assert log[|old(log)|] == Call(Pull(image), pulled);
        if !pulled.ok {
          assert !FineCall(log[|old(log)|]);
          return;
        }
        image := pulled.text;
      }
      var known := Ask(InspectImage(image));
      assert log[|before|] == Call(InspectImage(image), known);
      assert !skipPull ==> log[|old(log)|] == before[|old(log)|];
      ok, id := known.ok && known.text != "", known.text;
      assert !ok ==> !FineCall(log[|before|]);
    }

    /** Refuses a candidate whose version is known to be older. */
    method CheckVersion(id: string, oldId: string) returns (ok: bool)
      modifies `tick, `log
      ensures old(log) <= log && forall i | |old(log)| <= i < |log| :: log[i].command.Version?
      ensures ok <==> !KnownOlder(older, log, |old(log)|, id, oldId)
    {
      var candidateVersion := Ask(Version(id));
      if candidateVersion.ok {
        var oldVersion := Ask(Version(oldId));
        if oldVersion.ok && older(candidateVersion.text, oldVersion.text) {
          assert Succeeded(log[|old(log)|], Version(id)) && Succeeded(log[|old(log)| + 1], Version(oldId));
          return false;
        }
      }
      return true;
    }

    /** What the service runs now, and an attested candidate for it, by image and ID, that is not known to be older. */
    method FindCandidate(name: string) returns (ok: bool, oldId: string, image: string, id: string)
      modifies `tick, `log
      ensures old(log) <= log && Untouched(log, |old(log)|, |log|)
      ensures ok ==> name in containers && oldId == containers[name]
      ensures ok ==> Chosen(log, |old(log)|, |log|, name, image, id) && id != ""
      ensures ok ==> !KnownOlder(older, log, |old(log)|, id, oldId)
      ensures ok ==> oldId != ""
      ensures !ok ==> !Fine(log, |old(log)|) || name !in containers || containers[name] == "" ||
                      exists x :: KnownOlder(older, log, |old(log)|, x, containers[name])
    {
      hide KnownOlder, Chosen, Fine;
      ok, oldId, image, id := false, "", "", "";
      var inspected := Ask(InspectContainer(name));
      ghost var seen := log;
      if !inspected.ok || name !in containers || containers[name] == "" {
        if !inspected.ok { NotFineAt(log, |old(log)|, |old(log)|); }
        return;
      }
      oldId := containers[name];
      var found;
      found, image, id := PullImage(name);
      if !found {
        NotFine(log, |old(log)|, |seen|);
        return;
      }
      ghost var pulled := log;
      var allowed := CheckVersion(id, oldId);
      if !allowed {
        OlderSince(older, log, |old(log)|, |pulled|, id, oldId);
        return;
      }
      ghost var compared := log;
      var attested := Ask(Attest(name, image));
      if !attested.ok {
        NotFineAt(log, |old(log)|, |compared|);
        return;
      }
      ChosenBy(log, |old(log)|, |pulled| - 1, name, image, id);
      NotOlderBetween(older, compared, log, |old(log)|, |pulled|, id, oldId);
      ok := true;
    }

    /** The loop over the services. */
    method FindCandidates() returns (ok: bool, oldIds: Images, images: Images, ids: Images)
      modifies `tick, `log
      ensures old(log) <= log && Untouched(log, |old(log)|, |log|)
      ensures ok ==> Runs(containers, services, oldIds)
      ensures ok ==> AllChosen(log, |old(log)|, |log|, services, images, ids) && Complete(services, oldIds)
      ensures !ok ==> !Fine(log, |old(log)|) || !Complete(services, containers) ||
                      exists x, y :: KnownOlder(older, log, |old(log)|, x, y)
    {
      hide AllChosen, Chosen, KnownOlder, Fine;
      ok, oldIds, images, ids := false, map[], map[], map[];
      ghost var start := |log|;
      NoneChosen(log, start, images, ids);
      for i := 0 to |services|
        invariant old(log) <= log && start == |old(log)| && Untouched(log, start, |log|)
        invariant Runs(containers, services[..i], oldIds) && AllChosen(log, start, |log|, services[..i], images, ids)
        invariant Complete(services[..i], oldIds)
      {
        ghost var before := log;
        var found, oldId, image, id := FindCandidate(services[i]);
        if !found {
          if !Fine(log, |before|) {
            NotFine(log, start, |before|);
          } else if services[i] in containers && containers[services[i]] != "" {
            var x :| KnownOlder(older, log, |before|, x, containers[services[i]]);
            OlderSince(older, log, start, |before|, x, containers[services[i]]);
          }
          return;
        }
        OneMoreChosen(before, log, start, services[..i], images, ids, services[i], image, id);
        assert services[..i + 1] == services[..i] + [services[i]];
        oldIds, images, ids := oldIds[services[i] := oldId], images[services[i] := image], ids[services[i] := id];
      }
      assert services[..|services|] == services;
      ok := true;
    }

    method Rollback(oldIds: Images) returns (ok: bool)
      requires Complete(services, oldIds)
      modifies `tick, `overrideFile, `containers, `log
      ensures ok ==> overrideFile == oldIds && Runs(containers, services, oldIds) && EndsHealthy(log, services)
      ensures old(log) <= log && Tried(log, |old(log)|, oldIds)
      ensures ok ==> Replaced(log, |old(log)|, services, oldIds)
    {
      hide EndsHealthy, Runs, Recreates, ReplacedAt, Complete;
      ok := WriteOverride(oldIds);
      ghost var written := log;
      assert log[|old(log)|].command == WriteFile(oldIds);
      if !ok {
        return;
      }
      ok := Compose(oldIds);
      ghost var composed := log;
      assert log[|old(log)|] == written[|old(log)|];
      if !ok {
        return;
      }
      ok := VerifyWithRetry(oldIds);
      assert log[|old(log)|] == written[|old(log)|];
      if ok {
        ReplacedBy(written, composed, log, services, oldIds);
      }
    }

    /** From the override on: the new pair, or the old one again. */
    method Swap(oldIds: Images, images: Images, ids: Images) returns (outcome: Outcome)
      requires Complete(services, oldIds) && Present(containers, services)
      modifies `tick, `overrideFile, `containers, `log
      ensures outcome in [Failed, Success, RolledBack, RollbackFailed] && old(log) <= log
      ensures outcome == Failed ==> containers == old(containers)
      ensures outcome == Success ==> overrideFile == images && Runs(containers, services, ids)
      ensures outcome == RolledBack ==> overrideFile == oldIds && Runs(containers, services, oldIds)
      ensures outcome == RolledBack || outcome == Success ==> EndsHealthy(log, services)
      ensures outcome == Success ==> Replaced(log, |old(log)|, services, images)
      ensures outcome == RolledBack ==> Replaced(log, |old(log)|, services, oldIds)
      ensures outcome == RolledBack || outcome == RollbackFailed ==> Tried(log, |old(log)|, oldIds)
      ensures outcome != Failed ==> Tried(log, |old(log)|, images)
      ensures outcome == Failed ==> !Fine(log, |old(log)|) || !Complete(services, images)
      ensures outcome == RolledBack || outcome == RollbackFailed ==>
                !Fine(log, |old(log)|) ||
                CameUpWrong(log, |old(log)|, services, images, ids)
    {
      hide EndsHealthy, Runs, Recreates, ReplacedAt, Complete, Fine, FineCall, ComesUpOn, CameUpWrong, Replaced, Tried;
      ghost var from := |log|;
      var written := WriteOverride(images);
      if !written {
        if Complete(services, images) { NotFineCall(log, from, from); }
        return Failed;
      }
      ghost var stored := log;
      var up := Compose(ids);
      ghost var composed := log;
      var healthy := false;
      if up {
        healthy := VerifyWithRetry(ids);
      }
      ghost var checked := log;
      if healthy {
        ReplacedBy(stored, composed, log, services, images);
        ReplacedMeans(log, from, services, images);
        return Success;
      }
      WhyNotHealthy(stored, composed, checked, from, services, containers, images, ids, up);
      var back := Rollback(oldIds);
      TriedSince(log, from, |checked|, oldIds, services);
      StillBroken(checked, log, from, services, images, ids);
      return if back then RolledBack else RollbackFailed;
    }

    /** `update`: the pair is replaced as one, or it is what it was, or the failure is recorded as such. */
    method Update() returns (outcome: Outcome, images: Images, ids: Images, prepared: bool)
      requires Valid()
      modifies this
      ensures Valid() && old(log) <= log
      ensures prepared ==> ChosenFirst(log, |old(log)|, services, images, ids)
      ensures outcome == Success ==>
                prepared && Runs(containers, services, ids) && overrideFile == images && EndsHealthy(log, services)
      ensures outcome == RolledBack ==>
                prepared && Runs(containers, services, old(containers)) &&
                Runs(overrideFile, services, old(containers)) &&
                EndsHealthy(log, services)
      ensures outcome == NoChange ==>
                prepared && containers == old(containers) && overrideFile == old(overrideFile) &&
                Untouched(log, |old(log)|, |log|) && Runs(containers, services, ids)
      ensures outcome == Failed ==> containers == old(containers) && history == old(history)
      ensures outcome == Success ==> Replaced(log, |old(log)|, services, images)
      ensures outcome == NoChange <==> prepared && Runs(old(containers), services, ids)
      ensures !prepared ==> !Fine(log, |old(log)|) || !Complete(services, old(containers)) ||
                            exists x, y :: KnownOlder(older, log, |old(log)|, x, y)
      ensures prepared && outcome == Failed ==> !Fine(log, |old(log)|) || !Complete(services, images)
      ensures outcome == RolledBack || outcome == RollbackFailed ==>
                !Fine(log, |old(log)|) ||
                CameUpWrong(log, |old(log)|, services, images, ids)
      ensures !prepared ==>
                outcome == Failed && overrideFile == old(overrideFile) && Untouched(log, |old(log)|, |log|)
      ensures outcome != Failed ==>
                |history| > 0 && history == Recorded(old(history), history[0]) && history[0].outcome == outcome &&
                history[0].toIds == ids && Runs(old(containers), services, history[0].fromIds)
      ensures outcome == RolledBack ==> Replaced(log, |old(log)|, services, history[0].fromIds)
      ensures outcome == RolledBack || outcome == RollbackFailed ==>
                Tried(log, |old(log)|, images) && Tried(log, |old(log)|, history[0].fromIds)
      ensures outcome in [Success, RolledBack, NoChange] ==> !Mixed(containers, services, old(containers), ids)
    {
      hide *;
      var oldIds;
      ghost var from := |log|;
      prepared, oldIds, images, ids := FindCandidates();
      if !prepared {
        return Failed, images, ids, false;
      }
      ghost var known := log;
      AllNamed(log, from, |log|, services, images, ids);
      AllRun(containers, services, oldIds);
      var changed := false;
      for i := 0 to |services|
        invariant changed || forall j | 0 <= j < i :: services[j] in oldIds && ids[services[j]] == oldIds[services[j]]
        invariant changed ==> exists j | 0 <= j < i :: services[j] in oldIds && ids[services[j]] != oldIds[services[j]]
      {
        changed := changed || services[i] !in oldIds || ids[services[i]] != oldIds[services[i]];
      }
      SamePair(containers, services, oldIds, ids, changed);
      ChosenEarlier(known, log, from, services, images, ids);
      if !changed {
        NoChangeIsTrue(containers, services, oldIds, ids);
        RecordHistory(Entry(NoChange, oldIds, ids));
        return NoChange, images, ids, true;
      }
      outcome := Swap(oldIds, images, ids);
      ChosenEarlier(known, log, from, services, images, ids);
      SwappedSince(known, log, from, services, images, ids, oldIds);
      if outcome == Failed {
        return;
      }
      EntryIsTrue(old(containers), containers, services, oldIds, ids, outcome);
      RecordHistory(Entry(outcome, oldIds, ids));
      RecordedFirst(old(history), Entry(outcome, oldIds, ids));
    }
  }

  lemma RecordedFirst<T>(h: seq<T>, e: T)
    ensures |Recorded(h, e)| > 0 && Recorded(h, e)[0] == e
  {
  }

  lemma AllRun(containers: Images, services: seq<string>, ids: Images)
    requires Runs(containers, services, ids)
    ensures Present(containers, services) && Present(ids, services)
  {
  }

  lemma SamePair(containers: Images, services: seq<string>, oldIds: Images, ids: Images, changed: bool)
    requires Runs(containers, services, oldIds) && forall i | 0 <= i < |services| :: services[i] in ids
    requires changed || forall j | 0 <= j < |services| ::
                          services[j] in oldIds && ids[services[j]] == oldIds[services[j]]
    requires changed ==> exists j | 0 <= j < |services| ::
                           services[j] in oldIds && ids[services[j]] != oldIds[services[j]]
    ensures Runs(containers, services, ids) <==> !changed
  {
  }

  lemma NoChangeIsTrue(containers: Images, services: seq<string>, oldIds: Images, ids: Images)
    requires Runs(containers, services, oldIds) && Runs(containers, services, ids)
    ensures Truthful(Entry(NoChange, oldIds, ids), containers, services)
    ensures !Mixed(containers, services, containers, ids)
  {
  }

  /** The swap's entry is true, and a reported outcome leaves no mixed pair. */
  lemma EntryIsTrue(was: Images, containers: Images, services: seq<string>, oldIds: Images, ids: Images,
                    outcome: Outcome)
    requires Runs(was, services, oldIds) && outcome in [Success, RolledBack, RollbackFailed]
    requires outcome == Success ==> Runs(containers, services, ids)
    requires outcome == RolledBack ==> Runs(containers, services, oldIds)
    ensures Truthful(Entry(outcome, oldIds, ids), containers, services)
    ensures outcome != RollbackFailed ==> !Mixed(containers, services, was, ids)
    ensures outcome == RolledBack ==> Runs(containers, services, was) && Runs(oldIds, services, was)
  {
  }

  lemma SwappedSince(known: seq<Call>, log: seq<Call>, from: nat, services: seq<string>, images: Images, ids: Images,
                     oldIds: Images)
    requires from <= |known| && known <= log
    ensures Replaced(log, |known|, services, images) ==> Replaced(log, from, services, images)
    ensures Replaced(log, |known|, services, oldIds) ==> Replaced(log, from, services, oldIds)
    ensures Tried(log, |known|, images) ==> Tried(log, from, images)
    ensures Tried(log, |known|, oldIds) ==> Tried(log, from, oldIds)
    ensures !Fine(log, |known|) ==> !Fine(log, from)
    ensures CameUpWrong(log, |known|, services, images, ids) ==> CameUpWrong(log, from, services, images, ids)
  {
    hide ReplacedAt, Recreates, ComesUpOn, FineCall;
  }

  lemma NotFine(log: seq<Call>, from: nat, at: nat)
    requires from <= at && !Fine(log, at)
    ensures !Fine(log, from)
  {
  }

  lemma NotFineAt(log: seq<Call>, from: nat, at: nat)
    requires from <= at < |log| && !log[at].answer.ok
    ensures !Fine(log, from)
  {
    assert !FineCall(log[at]);
  }

  lemma NotFineCall(log: seq<Call>, from: nat, at: nat)
    requires from <= at < |log| && !FineCall(log[at])
    ensures !Fine(log, from)
  {
  }

  lemma NotFineBefore(before: seq<Call>, log: seq<Call>, from: nat, at: nat)
    requires before <= log && from <= at && !Fine(before, at)
    ensures !Fine(log, from)
  {
    var i :| at <= i < |before| && !FineCall(before[i]);
    assert !FineCall(log[i]);
  }

  lemma OlderSince(older: (string, string) -> bool, log: seq<Call>, from: nat, at: nat, id: string, oldId: string)
    requires from <= at && KnownOlder(older, log, at, id, oldId)
    ensures KnownOlder(older, log, from, id, oldId)
  {
  }

  ghost predicate AllAsked(log: seq<Call>, at: nat, services: seq<string>) {
    at + |services| <= |log| && forall i | 0 <= i < |services| :: log[at + i].command == Recreate(services[i])
  }

  lemma NoneAsked(log: seq<Call>, at: nat, containers: Images, expected: Images)
    requires at <= |log|
    ensures AllAsked(log, at, []) && Runs(containers, [], expected)
  {
  }

  lemma OneMoreAsked(before: seq<Call>, log: seq<Call>, at: nat, services: seq<string>, i: nat)
    requires i < |services| && before < log && |log| == |before| + 1 && |before| == at + i
    requires AllAsked(before, at, services[..i]) && log[at + i].command == Recreate(services[i])
    ensures AllAsked(log, at, services[..i + 1])
  {
    assert services[..i + 1] == services[..i] + [services[i]];
    assert forall j | 0 <= j < |before| :: before[j] == log[j];
  }

  lemma AllRecreated(before: seq<Call>, log: seq<Call>, at: nat, services: seq<string>, expected: Images)
    requires before < log && |log| == |before| + 1 && |before| == at + |services|
    requires AllAsked(before, at, services) && log[|before|].command == ComposeUp
    ensures Recreates(log, at, services)
    ensures ComesUpOn(before, at, services, expected) <==> ComesUpOn(log, at, services, expected)
  {
    assert forall i | 0 <= i < |before| :: before[i] == log[i];
  }

  lemma OneMoreUp(before: seq<Call>, log: seq<Call>, at: nat, services: seq<string>, i: nat, was: Images,
                  containers: Images, expected: Images)
    requires i < |services| && before < log && |log| == |before| + 1 && |before| == at + i
    requires containers == if services[i] in was && log[at + i].answer.effect
                           then was[services[i] := log[at + i].answer.text] else was
    requires ComesUpOn(before, at, services[..i], expected) && Present(was, services[..i]) ==>
               Runs(was, services[..i], expected)
    ensures ComesUpOn(log, at, services[..i + 1], expected) && Present(containers, services[..i + 1]) ==>
              Runs(containers, services[..i + 1], expected)
  {
    var upTo := services[..i + 1];
    if ComesUpOn(log, at, upTo, expected) && Present(containers, upTo) {
      assert upTo == services[..i] + [services[i]];
      forall j | 0 <= j < i
        ensures services[..i][j] in expected && before[at + j].answer.effect &&
                before[at + j].answer.text == expected[services[..i][j]]
      {
        assert upTo[j] == services[j] && log[at + j] == before[at + j];
      }
      assert upTo[i] == services[i];
      forall j | 0 <= j < |upTo|
        ensures upTo[j] in containers && upTo[j] in expected && containers[upTo[j]] == expected[upTo[j]]
      {
        assert j < i ==> upTo[j] == services[..i][j];
      }
    }
  }

  /** Written, recreated, healthy. */
  lemma ReplacedBy(written: seq<Call>, composed: seq<Call>, log: seq<Call>, services: seq<string>, images: Images)
    requires |written| > 0 && written <= composed <= log && Succeeded(written[|written| - 1], WriteFile(images))
    requires |composed| == |written| + |services| + 1 && Recreates(composed, |written|, services)
    requires composed[|composed| - 1].answer.ok && EndsHealthy(log, services)
    requires |log| >= |composed| + 2 * |services|
    ensures ReplacedAt(log, |written| - 1, services, images)
  {
    hide EndsHealthy;
  }

  lemma ReplacedMeans(log: seq<Call>, from: nat, services: seq<string>, images: Images)
    requires ReplacedAt(log, from, services, images)
    ensures Replaced(log, from, services, images) && Tried(log, from, images)
  {
    hide EndsHealthy, Recreates;
  }

  /** What stopped the new pair. */
  lemma WhyNotHealthy(stored: seq<Call>, composed: seq<Call>, checked: seq<Call>, from: nat, services: seq<string>,
                      containers: Images, images: Images, ids: Images, up: bool)
    requires stored <= composed <= checked && |stored| == from + 1 && Succeeded(stored[from], WriteFile(images))
    requires |composed| == |stored| + |services| + 1 && Recreates(composed, |stored|, services)
    requires up == composed[|composed| - 1].answer.ok && Present(containers, services)
    requires ComesUpOn(composed, |stored|, services, ids) && Present(containers, services) ==>
               Runs(containers, services, ids)
    requires up ==> !Fine(checked, |composed|) || !Runs(containers, services, ids)
    ensures !Fine(checked, from) || CameUpWrong(checked, from, services, images, ids)
  {
    hide Runs;
    if !up {
      assert checked[|composed| - 1] == composed[|composed| - 1];
      NotFineAt(checked, from, |composed| - 1);
    } else if !Fine(checked, |composed|) {
      NotFine(checked, from, |composed|);
    } else {
      assert !ComesUpOn(composed, from + 1, services, ids);
      UpAgrees(composed, checked, from + 1, services, ids);
      assert checked[from] == stored[from];
    }
  }

  lemma UpAgrees(before: seq<Call>, log: seq<Call>, at: nat, services: seq<string>, ids: Images)
    requires before <= log && at + |services| < |before|
    ensures ComesUpOn(before, at, services, ids) <==> ComesUpOn(log, at, services, ids)
    ensures Recreates(before, at, services) <==> Recreates(log, at, services)
  {
    assert forall i | 0 <= i < |before| :: before[i] == log[i];
  }

  lemma TriedSince(log: seq<Call>, from: nat, at: nat, images: Images, services: seq<string>)
    requires from <= at && Tried(log, at, images)
    ensures Tried(log, from, images)
    ensures Replaced(log, at, services, images) ==> Replaced(log, from, services, images)
  {
    hide ReplacedAt;
  }

  lemma StillBroken(checked: seq<Call>, log: seq<Call>, from: nat, services: seq<string>, images: Images, ids: Images)
    requires checked <= log && from < |checked| && Succeeded(checked[from], WriteFile(images))
    ensures !Fine(checked, from) ==> !Fine(log, from)
    ensures CameUpWrong(checked, from, services, images, ids) ==> CameUpWrong(log, from, services, images, ids)
    ensures Tried(log, from, images)
  {
    if !Fine(checked, from) {
      NotFineBefore(checked, log, from, from);
    }
    assert log[from] == checked[from];
    if k :| from <= k < |checked| && Succeeded(checked[k], WriteFile(images)) && Recreates(checked, k + 1, services) &&
            !ComesUpOn(checked, k + 1, services, ids) {
      UpAgrees(checked, log, k + 1, services, ids);
      assert Succeeded(log[k], WriteFile(images));
    }
  }

  lemma NothingHealthy(log: seq<Call>)
    ensures EndsHealthy(log, [])
  {
  }

  lemma OneMoreHealthy(before: seq<Call>, log: seq<Call>, services: seq<string>, name: string)
    requires EndsHealthy(before, services) && before <= log && |log| == |before| + 2
    requires Succeeded(log[|before|], InspectContainer(name)) && Succeeded(log[|before| + 1], CheckHealth(name))
    ensures EndsHealthy(log, services + [name])
  {
    var names := services + [name];
    forall i | 0 <= i < |names|
      ensures var at := |log| - 2 * (|names| - i);
              Succeeded(log[at], InspectContainer(names[i])) && Succeeded(log[at + 1], CheckHealth(names[i]))
    {
      if i < |services| {
        assert |log| - 2 * (|names| - i) == |before| - 2 * (|services| - i);
      }
    }
  }

  lemma ChosenBy(log: seq<Call>, from: nat, at: nat, name: string, image: string, id: string)
    requires from <= at < |log| && Succeeded(log[|log| - 1], Attest(name, image))
    requires Succeeded(log[at], InspectImage(image)) && log[at].answer.text == id
    ensures Chosen(log, from, |log|, name, image, id)
  {
  }

  /** Version queries stand next to each other only where they were compared. */
  lemma NotOlderBetween(older: (string, string) -> bool, compared: seq<Call>, log: seq<Call>, from: nat, at: nat,
                        id: string, oldId: string)
    requires from <= at <= |compared| < |log| && compared <= log && !KnownOlder(older, compared, at, id, oldId)
    requires forall i | from <= i < at :: !log[i].command.Version?
    requires forall i | |compared| <= i < |log| :: !log[i].command.Version?
    ensures !KnownOlder(older, log, from, id, oldId)
  {
  }

  lemma NoneChosen(log: seq<Call>, from: nat, images: Images, ids: Images)
    requires from <= |log|
    ensures AllChosen(log, from, |log|, [], images, ids)
  {
  }

  lemma AllNamed(log: seq<Call>, from: nat, to: nat, services: seq<string>, images: Images, ids: Images)
    requires from <= to <= |log| && AllChosen(log, from, to, services, images, ids)
    ensures forall i | 0 <= i < |services| :: services[i] in images && services[i] in ids
  {
  }

  lemma ChosenLater(before: seq<Call>, log: seq<Call>, from: nat, from': nat, to: nat, name: string, image: string,
                    id: string)
    requires before <= log && from <= from' <= to <= |before| && Chosen(before, from', to, name, image, id)
    ensures Chosen(log, from, |log|, name, image, id) && Chosen(log, from, to, name, image, id)
  {
    var i :| from' <= i < to && Succeeded(before[i], Attest(name, image));
    var j :| from' <= j < to && Succeeded(before[j], InspectImage(image)) && before[j].answer.text == id;
    assert Succeeded(log[i], Attest(name, image)) && Succeeded(log[j], InspectImage(image));
  }

  lemma OneMoreChosen(before: seq<Call>, log: seq<Call>, from: nat, services: seq<string>, images: Images, ids: Images,
                      name: string, image: string, id: string)
    requires before <= log && from <= |before| && AllChosen(before, from, |before|, services, images, ids)
    requires Chosen(log, |before|, |log|, name, image, id)
    ensures AllChosen(log, from, |log|, services + [name], images[name := image], ids[name := id])
  {
    hide Chosen;
    ChosenLater(log, log, from, |before|, |log|, name, image, id);
    forall i | 0 <= i < |services| && services[i] != name
      ensures Chosen(log, from, |log|, services[i], images[services[i]], ids[services[i]])
    {
      ChosenLater(before, log, from, from, |before|, services[i], images[services[i]], ids[services[i]]);
    }
  }

  lemma ChosenEarlier(before: seq<Call>, log: seq<Call>, from: nat, services: seq<string>, images: Images, ids: Images)
    requires before <= log && from <= |before| && Untouched(before, from, |before|)
    requires AllChosen(before, from, |before|, services, images, ids)
    ensures ChosenFirst(log, from, services, images, ids)
  {
    hide Chosen;
    forall i | 0 <= i < |services|
      ensures Chosen(log, from, |before|, services[i], images[services[i]], ids[services[i]])
    {
      ChosenLater(before, log, from, from, |before|, services[i], images[services[i]], ids[services[i]]);
    }
    assert Untouched(log, from, |before|) && AllChosen(log, from, |before|, services, images, ids);
  }
}
