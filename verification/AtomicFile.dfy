/**
  `atomicfile.WriteFiles` (atomicfile.go:133-208): several files staged, then renamed one after the other.
  The disk keeps every state a crash between two system calls could leave.
 */
module AtomicFile {

  datatype File = File(path: string, data: string)

  /**
    How the system calls for one file end: creating its temporary file, filling and syncing it (with what a
    failed attempt left in it), renaming it, and removing it should that be needed.
   */
  datatype Outcome = Outcome(created: bool, staged: bool, partial: string, renamed: bool, removed: bool)

  type Targets = map<string, string>

  /** The targets after the files replaced theirs, in order. */
  function Applied(targets: Targets, files: seq<File>): Targets {
    if files == [] then targets
    else Applied(targets, files[..|files| - 1])[files[|files| - 1].path := files[|files| - 1].data]
  }

  predicate AllStaged(outs: seq<Outcome>) { forall i | 0 <= i < |outs| :: outs[i].created && outs[i].staged }

  /** How many renames succeed before one fails. */
  function LeadingRenames(outs: seq<Outcome>): (k: nat)
    ensures k <= |outs| && (forall i | 0 <= i < k :: outs[i].renamed) && (k < |outs| ==> !outs[k].renamed)
  {
    if outs == [] || !outs[0].renamed then 0 else 1 + LeadingRenames(outs[1..])
  }

  /** How many files reach their target: none unless all of them could be staged. */
  function Committed(outs: seq<Outcome>): (k: nat)
    ensures k <= |outs|
  {
    if AllStaged(outs) then LeadingRenames(outs) else 0
  }

  /** The states of a run: each holds a prefix of the new files, and the prefixes only grow. */
  ghost predicate Grows(states: seq<Targets>, was: Targets, files: seq<File>, limit: nat)
    requires limit <= |files|
  {
    exists ks: seq<nat> :: Prefixes(states, was, files, limit, ks)
  }

  ghost predicate Prefixes(states: seq<Targets>, was: Targets, files: seq<File>, limit: nat, ks: seq<nat>)
    requires limit <= |files|
  {
    |ks| == |states| && (forall i | 0 <= i < |ks| :: ks[i] <= limit && states[i] == Applied(was, files[..ks[i]])) &&
    forall i, j | 0 <= i < j < |ks| :: ks[i] <= ks[j]
  }

  class Disk {
    var targets: Targets
    /** Temporary files by number. */
    var temps: map<nat, string>
    var next: nat
    /** Every state of the targets since the disk was set up, one per system call. */
    ghost var trace: seq<Targets>

    constructor (targets: Targets)
      ensures this.targets == targets && temps == map[] && trace == [targets] && Fresh()
    {
      this.targets, temps, next, trace := targets, map[], 0, [targets];
    }

    /** Numbers from `next` on are unused. */
    ghost predicate Fresh()
      reads this
    {
      forall n | n in temps :: n < next
    }

    method Create(o: Outcome) returns (ok: bool, temp: nat)
      requires Fresh()
      modifies `temps, `next, `trace
      ensures Fresh() && ok == o.created && trace == old(trace) + [targets]
      ensures next == if ok then old(next) + 1 else old(next)
      ensures if ok then temp == old(next) && temps == old(temps)[temp := ""] else temps == old(temps)
    {
      ok, temp := o.created, next;
      if ok {
        temps := temps[next := ""];
        next := next + 1;
      }
      trace := trace + [targets];
    }

    method Stage(temp: nat, data: string, o: Outcome) returns (ok: bool)
      requires Fresh() && temp in temps
      modifies `temps, `trace
      ensures Fresh() && ok == o.staged && trace == old(trace) + [targets]
      ensures temps == old(temps)[temp := if ok then data else o.partial]
    {
      ok := o.staged;
      temps := temps[temp := if ok then data else o.partial];
      trace := trace + [targets];
    }

    method Rename(temp: nat, path: string, o: Outcome) returns (ok: bool)
      requires Fresh() && temp in temps
      modifies `targets, `temps, `trace
      ensures Fresh() && ok == o.renamed && trace == old(trace) + [targets]
      ensures targets == if ok then old(targets)[path := old(temps)[temp]] else old(targets)
      ensures temps == if ok then old(temps) - {temp} else old(temps)
    {
      ok := o.renamed;
      if ok {
        targets := targets[path := temps[temp]];
        temps := temps - {temp};
      }
      trace := trace + [targets];
    }

    /** Removing a file that is gone is no change. */
    method Remove(temp: nat, o: Outcome)
      requires Fresh()
      modifies `temps, `trace
      ensures Fresh() && trace == old(trace) + [targets]
      ensures temps == if o.removed then old(temps) - {temp} else old(temps)
    {
      if o.removed {
        temps := temps - {temp};
      }
      trace := trace + [targets];
    }

    /** Removes the temporary files `first`, `first + 1`, ... of the batch. */
    method CleanUp(first: nat, count: nat, outs: seq<Outcome>)
      requires Fresh() && count <= |outs|
      modifies `temps, `trace
      ensures Fresh() && SameTargets(old(trace), trace, targets) && Removed(old(temps), temps, outs, first, count)
    {
      for k := 0 to count
        invariant Fresh() && SameTargets(old(trace), trace, targets) && Removed(old(temps), temps, outs, first, k)
      {
        Remove(first + k, outs[k]);
      }
    }

    /** One file into its own temporary file, removed again when it cannot be filled. */
    method StageFile(data: string, o: Outcome) returns (ok: bool)
      requires Fresh()
      modifies `temps, `next, `trace
      ensures Fresh() && ok == (o.created && o.staged) && SameTargets(old(trace), trace, targets)
      ensures ok ==> next == old(next) + 1 && temps == old(temps)[old(next) := data]
      ensures !ok ==> temps == if o.created && !o.removed then old(temps)[old(next) := o.partial] else old(temps)
    {
      var created, temp := Create(o);
      if !created {
        return false;
      }
      ok := Stage(temp, data, o);
      if !ok {
        Remove(temp, o);
      }
    }

    /** The first loop: every file into its own temporary file, or none left behind. */
    method StageAll(files: seq<File>, outs: seq<Outcome>) returns (ok: bool)
      requires Fresh() && |outs| == |files|
      modifies `temps, `next, `trace
      ensures Fresh() && ok == AllStaged(outs) && SameTargets(old(trace), trace, targets)
      ensures ok ==> Batch(old(temps), temps, files, old(next), 0)
      ensures !ok ==> Leftover(old(temps), temps, outs, old(next))
    {
      hide Batch, Leftover, Removed;
      var first := next;
      EmptyBatch(temps, first);
      assert files[..0] == [];
      for k := 0 to |files|
        invariant Fresh() && next == first + k && SameTargets(old(trace), trace, targets)
        invariant forall i | 0 <= i < k :: outs[i].created && outs[i].staged
        invariant Batch(old(temps), temps, files[..k], first, 0)
      {
        ghost var known := temps;
        var staged := StageFile(files[k].data, outs[k]);
        if !staged {
          ghost var full := temps;
          CleanUp(first, k, outs);
          PartialLeftOver(old(temps), known, full, temps, files[..k], outs, first, outs[k].partial);
          return false;
        }
        BatchGrows(old(temps), known, files, first, k);
      }
      assert files[..|files|] == files;
      return true;
    }

    /** The second loop: one rename after the other, and the rest removed when one fails. */
    method RenameAll(files: seq<File>, outs: seq<Outcome>, first: nat, ghost was: map<nat, string>)
      returns (ok: bool)
      requires Fresh() && |outs| == |files| && Batch(was, temps, files, first, 0)
      requires forall n | n in was :: n < first
      modifies `targets, `temps, `trace
      ensures Fresh() && ok == (LeadingRenames(outs) == |files|)
      ensures targets == Applied(old(targets), files[..LeadingRenames(outs)])
      ensures old(trace) <= trace && Grows(trace[|old(trace)|..], old(targets), files, LeadingRenames(outs))
      ensures if ok then temps == was else Leftover(was, temps, outs, first)
    {
      hide Batch, Leftover, Removed, Prefixes, Applied, SameTargets, LeadingRenames;
      ghost var start, before := trace, targets;
      ghost var ks: seq<nat> := [];
      NoStates(before, files);
      assert trace[|start|..] == [];
      for k := 0 to |files|
        invariant Fresh() && targets == Applied(before, files[..k]) && start <= trace
        invariant forall i | 0 <= i < k :: outs[i].renamed
        invariant Batch(was, temps, files, first, k)
        invariant Prefixes(trace[|start|..], before, files, k, ks)
      {
        ghost var earlier, known := trace, temps;
        BatchHolds(was, temps, files, first, k);
        AppliedNext(before, files, k);
        var renamed := Rename(first + k, files[k].path, outs[k]);
        assert trace[|start|..] == earlier[|start|..] + [targets];
        if !renamed {
          LeadingIs(outs, k);
          Widened(trace[|start|..], before, files, k, ks, k);
          ghost var middle := trace;
          CleanUp(first, |files|, outs);
          NothingLeftOver(was, known, temps, files, outs, first, k);
          Extended(start, middle, trace, before, files, k, ks + [k]);
          return false;
        }
        BatchShrinks(was, known, temps, files, first, k);
        Widened(trace[|start|..], before, files, k, ks, k + 1);
        ks := ks + [k + 1];
      }
      LeadingIs(outs, |files|);
      GrowsBy(trace[|start|..], before, files, |files|, ks);
      BatchDone(was, temps, files, first);
      return true;
    }

    /**
      The batch. Whatever fails, and wherever a crash cuts the run off, the targets hold a prefix of the new
      files; a temporary file is left behind only where its removal failed.
     */
    method WriteFiles(files: seq<File>, outs: seq<Outcome>, synced: bool) returns (ok: bool)
      requires Fresh() && |outs| == |files|
      modifies this
      ensures Fresh()
      ensures ok <==> AllStaged(outs) && Committed(outs) == |files| && synced
      ensures targets == Applied(old(targets), files[..Committed(outs)])
      ensures old(trace) <= trace && Grows(trace[|old(trace)|..], old(targets), files, Committed(outs))
      ensures if ok then temps == old(temps) else Leftover(old(temps), temps, outs, old(next))
      ensures ok <==> synced && forall i | 0 <= i < |outs| :: outs[i].created && outs[i].staged && outs[i].renamed
      ensures (exists i | 0 <= i < |outs| :: !outs[i].created || !outs[i].staged) ==> targets == old(targets)
      ensures ok && DistinctPaths(files) ==> forall i | 0 <= i < |files| ::
                files[i].path in targets && targets[files[i].path] == files[i].data
      ensures forall path | path !in old(targets) && path in targets ::
                exists i | 0 <= i < |files| :: files[i].path == path
      ensures (forall i | 0 <= i < |outs| :: outs[i].removed) ==> temps == old(temps)
    {
      hide Applied, Batch, Grows;
      Everything(targets, files, outs);
      ghost var was, start, before := targets, trace, temps;
      var first := next;
      assert files[..0] == [];
      var staged := StageAll(files, outs);
      StillGrows(start, trace, was, files);
      if !staged {
        return false;
      }
      ghost var middle := trace;
      var renamed := RenameAll(files, outs, first, before);
      Chained(start, middle, trace, was, files, LeadingRenames(outs));
      assert files[..|files|] == files;
      return renamed && synced;
    }
  }

  /** What the outcomes of all calls say about the files that reach their targets. */
  lemma Everything(was: Targets, files: seq<File>, outs: seq<Outcome>)
    requires |outs| == |files|
    ensures AllStaged(outs) && LeadingRenames(outs) == |files| <==>
            forall i | 0 <= i < |outs| :: outs[i].created && outs[i].staged && outs[i].renamed
    ensures Applied(was, files[..0]) == was
    ensures DistinctPaths(files) ==> forall i | 0 <= i < |files| ::
              files[i].path in Applied(was, files) && Applied(was, files)[files[i].path] == files[i].data
    ensures forall k: nat, path | k <= |files| && path in Applied(was, files[..k]) && path !in was ::
              exists i | 0 <= i < |files| :: files[i].path == path
  {
    assert files[..0] == [] && files[..|files|] == files;
    if DistinctPaths(files) {
      PrefixState(was, files, |files|, "");
    }
    forall k: nat, path | k <= |files| && path in Applied(was, files[..k]) && path !in was
      ensures exists i | 0 <= i < |files| :: files[i].path == path
    {
      AppliedPaths(was, files, k, path);
    }
  }

  lemma {:induction false} AppliedPaths(was: Targets, files: seq<File>, k: nat, path: string)
    requires k <= |files| && path in Applied(was, files[..k]) && path !in was
    ensures exists i | 0 <= i < |files| :: files[i].path == path
  {
    if k > 0 && files[k - 1].path != path {
      AppliedNext(was, files, k - 1);
      AppliedPaths(was, files, k - 1, path);
    } else {
      assert files[..0] == [];
    }
  }

  /** The temporary files `first + from`, ... hold the data of their files; the others are as before. */
  ghost predicate Batch(was: map<nat, string>, temps: map<nat, string>, files: seq<File>, first: nat, from: nat) {
    (forall n :: n in temps <==> n in was || first + from <= n < first + |files|) &&
    (forall n | n in was && n < first :: temps[n] == was[n]) &&
    (forall n | n in was :: n < first) &&
    forall i | from <= i < |files| :: temps[first + i] == files[i].data
  }

  /** What a failed batch leaves: only files whose removal failed, and nothing that was there is touched. */
  ghost predicate Leftover(was: map<nat, string>, temps: map<nat, string>, outs: seq<Outcome>, first: nat) {
    (forall n | n in was :: n in temps && temps[n] == was[n]) &&
    forall n | n in temps && n !in was :: first <= n < first + |outs| && !outs[n - first].removed
  }

  /** The numbered files from `first` were removed where that succeeded; nothing else changed. */
  ghost predicate Removed(was: map<nat, string>, temps: map<nat, string>, outs: seq<Outcome>, first: nat, count: nat)
    requires count <= |outs|
  {
    (forall n :: n in temps <==> n in was && !(first <= n < first + count && outs[n - first].removed)) &&
    forall n | n in temps :: temps[n] == was[n]
  }

  lemma EmptyBatch(temps: map<nat, string>, first: nat)
    requires forall n | n in temps :: n < first
    ensures Batch(temps, temps, [], first, 0)
  {
  }

  lemma BatchGrows(was: map<nat, string>, less: map<nat, string>, files: seq<File>, first: nat, k: nat)
    requires k < |files| && Batch(was, less, files[..k], first, 0)
    ensures Batch(was, less[first + k := files[k].data], files[..k + 1], first, 0)
  {
    var temps := less[first + k := files[k].data];
    var done, all := files[..k], files[..k + 1];
    forall i | 0 <= i < |all| ensures first + i in temps && temps[first + i] == all[i].data {
      assert i < k ==> less[first + i] == done[i].data;
    }
  }

  lemma BatchHolds(was: map<nat, string>, temps: map<nat, string>, files: seq<File>, first: nat, k: nat)
    requires k < |files| && Batch(was, temps, files, first, k)
    ensures first + k in temps && temps[first + k] == files[k].data
  {
  }

  lemma BatchShrinks(was: map<nat, string>, known: map<nat, string>, temps: map<nat, string>, files: seq<File>,
                     first: nat, k: nat)
    requires k < |files| && Batch(was, known, files, first, k) && temps == known - {first + k}
    ensures Batch(was, temps, files, first, k + 1)
  {
  }

  lemma BatchDone(was: map<nat, string>, temps: map<nat, string>, files: seq<File>, first: nat)
    requires Batch(was, temps, files, first, |files|)
    ensures temps == was
  {
  }

  lemma NothingLeftOver(was: map<nat, string>, full: map<nat, string>, temps: map<nat, string>, files: seq<File>,
                        outs: seq<Outcome>, first: nat, from: nat)
    requires |files| <= |outs| && Batch(was, full, files, first, from) && Removed(full, temps, outs, first, |files|)
    ensures Leftover(was, temps, outs, first)
  {
  }

  /** The same when staging stopped at the next file, which may have left a partial one. */
  lemma PartialLeftOver(was: map<nat, string>, known: map<nat, string>, full: map<nat, string>, temps: map<nat, string>,
                        files: seq<File>, outs: seq<Outcome>, first: nat, partial: string)
    requires |files| < |outs| && Removed(full, temps, outs, first, |files|) && Batch(was, known, files, first, 0)
    requires full == known || (!outs[|files|].removed && full == known[first + |files| := partial])
    ensures Leftover(was, temps, outs, first)
  {
  }

  lemma NoStates(was: Targets, files: seq<File>)
    ensures Prefixes([], was, files, 0, []) && Applied(was, files[..0]) == was
  {
    assert files[..0] == [];
  }

  lemma AppliedNext(was: Targets, files: seq<File>, k: nat)
    requires k < |files|
    ensures Applied(was, files[..k + 1]) == Applied(was, files[..k])[files[k].path := files[k].data]
  {
    assert files[..k + 1][..k] == files[..k];
  }

  lemma GrowsBy(states: seq<Targets>, was: Targets, files: seq<File>, limit: nat, ks: seq<nat>)
    requires limit <= |files| && Prefixes(states, was, files, limit, ks)
    ensures Grows(states, was, files, limit) && files[..|files|] == files
  {
  }

  lemma LeadingIs(outs: seq<Outcome>, k: nat)
    requires k <= |outs| && (forall i | 0 <= i < k :: outs[i].renamed) && (k < |outs| ==> !outs[k].renamed)
    ensures LeadingRenames(outs) == k
  {
  }

  lemma StillGrows(start: seq<Targets>, trace: seq<Targets>, was: Targets, files: seq<File>)
    requires SameTargets(start, trace, was)
    ensures Grows(trace[|start|..], was, files, 0)
  {
    assert files[..0] == [];
    var ks := Constant(0, |trace| - |start|);
    assert Prefixes(trace[|start|..], was, files, 0, ks);
  }

  lemma Chained(start: seq<Targets>, middle: seq<Targets>, trace: seq<Targets>, was: Targets, files: seq<File>,
                limit: nat)
    requires limit <= |files| && SameTargets(start, middle, was) && middle <= trace
    requires Grows(trace[|middle|..], was, files, limit)
    ensures start <= trace && Grows(trace[|start|..], was, files, limit)
  {
    assert files[..0] == [] && Applied(was, []) == was;
    hide Applied, Constant;
    var ks :| Prefixes(trace[|middle|..], was, files, limit, ks);
    var all := Constant(0, |middle| - |start|) + ks;
    forall i | 0 <= i < |all| ensures trace[|start|..][i] == Applied(was, files[..all[i]]) {
      if i >= |middle| - |start| {
        assert trace[|start|..][i] == trace[|middle|..][i - (|middle| - |start|)];
      } else {
        assert trace[|start|..][i] == middle[|start| + i];
      }
    }
    assert Prefixes(trace[|start|..], was, files, limit, all);
  }

  /** `trace` continues `start` with states equal to `targets`. */
  ghost predicate SameTargets(start: seq<Targets>, trace: seq<Targets>, targets: Targets) {
    start <= trace && forall i | |start| <= i < |trace| :: trace[i] == targets
  }

  ghost function Constant(k: nat, n: int): (ks: seq<nat>)
    ensures n >= 0 ==> |ks| == n && forall i | 0 <= i < n :: ks[i] == k
  {
    if n <= 0 then [] else Constant(k, n - 1) + [k]
  }

  lemma Widened(states: seq<Targets>, was: Targets, files: seq<File>, k: nat, ks: seq<nat>, next: nat)
    requires k <= next <= |files| && states != [] && Prefixes(states[..|states| - 1], was, files, k, ks)
    requires states[|states| - 1] == Applied(was, files[..next])
    ensures Prefixes(states, was, files, next, ks + [next])
  {
    hide Applied;
  }

  lemma Extended(start: seq<Targets>, middle: seq<Targets>, trace: seq<Targets>, was: Targets, files: seq<File>, k: nat,
                 ks: seq<nat>)
    requires k <= |files| && start <= middle && Prefixes(middle[|start|..], was, files, k, ks)
    requires SameTargets(middle, trace, Applied(was, files[..k]))
    ensures start <= trace && Grows(trace[|start|..], was, files, k)
  {
    hide Applied, Constant;
    var more := ks + Constant(k, |trace| - |middle|);
    forall i | 0 <= i < |more| ensures trace[|start|..][i] == Applied(was, files[..more[i]]) {
      if i < |ks| {
        assert trace[|start|..][i] == middle[|start|..][i];
      } else {
        assert trace[|start|..][i] == trace[|start| + i];
      }
    }
    assert Prefixes(trace[|start|..], was, files, k, more);
  }

  // ---------- what a prefix means for the files ----------

  ghost predicate DistinctPaths(files: seq<File>) {
    forall i, j | 0 <= i < j < |files| :: files[i].path != files[j].path
  }

  /** With distinct paths, a prefix state has each target whole: the first `k` new, the others as before. */
  lemma {:induction false} PrefixState(was: Targets, files: seq<File>, k: nat, path: string)
    requires DistinctPaths(files) && k <= |files|
    ensures forall i | 0 <= i < k ::
              files[i].path in Applied(was, files[..k]) && Applied(was, files[..k])[files[i].path] == files[i].data
    ensures (forall i | 0 <= i < k :: files[i].path != path) ==>
              (path in Applied(was, files[..k]) <==> path in was) &&
              (path in was ==> Applied(was, files[..k])[path] == was[path])
  {
    if k == 0 {
      assert files[..0] == [];
    } else {
      PrefixState(was, files, k - 1, path);
      assert files[..k][..k - 1] == files[..k - 1] && files[..k][k - 1] == files[k - 1];
    }
  }

  /** A later file is never ahead of an earlier one: once its target changed, the earlier targets are new. */
  lemma NeverAhead(was: Targets, files: seq<File>, k: nat, early: nat, late: nat)
    requires DistinctPaths(files) && k <= |files| && early < late < |files|
    requires var now := Applied(was, files[..k]); var path := files[late].path;
             path in now && !(path in was && was[path] == now[path])
    ensures var now := Applied(was, files[..k]); files[early].path in now && now[files[early].path] == files[early].data
  {
    PrefixState(was, files, k, files[late].path);
  }
}
