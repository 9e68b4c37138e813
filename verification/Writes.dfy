/** How an atomic file replacement can end. */
module Writes {

  /**
    Done, refused with the target unchanged, or reported as failed although the rename happened, because the
    directory could not be synced afterwards (atomicfile.go:50-66).
   */
  datatype WriteOutcome = Done | Refused | Unsynced

  /** What the file holds afterwards. */
  function Written<T>(was: T, next: T, o: WriteOutcome): T { if o.Refused? then was else next }
}
