/** The shared upload folder (`/tmp/uploads`) as one flat namespace: a map from
    entry name to what `os.path` would report about that entry. */
module Folder {

  type Bytes = seq<bv8>

  /** The kind of a directory entry, as `os.path.isfile`, `islink` and `isdir`
      tell them apart; `Special` is anything none of them accepts (a FIFO, a
      socket, a device node). */
  datatype Entry = File(content: Bytes) | Directory | Link | Special

  /** The entries `clear_folder_contents` tries to delete: files and links with
      `os.remove`, subdirectories with `shutil.rmtree`. */
  predicate Removable(e: Entry) {
    e.File? || e.Link? || e.Directory?
  }

  class UploadFolder {
    var present: bool
    var entries: map<string, Entry>

    /** A folder that does not exist has no entries. */
    ghost predicate Valid()
      reads this
    {
      !present ==> entries == map[]
    }

    constructor (present: bool, entries: map<string, Entry>)
      requires !present ==> entries == map[]
      ensures Valid()
      ensures this.present == present && this.entries == entries
    {
      this.present := present;
      this.entries := entries;
    }
  }

  function RemovableNames(m: map<string, Entry>): set<string> {
    set n | n in m && Removable(m[n])
  }

  /** What a deletion pass over `m` leaves once it has reached every entry
      except those in `pending`: the entries not yet reached, the ones it
      passes over, and the ones whose deletion raised (`failing`). */
  function Survivors(m: map<string, Entry>, failing: set<string>, pending: set<string>): map<string, Entry> {
    map n | n in m && (n in pending || !Removable(m[n]) || n in failing) :: m[n]
  }

  /** The folder after a complete deletion pass: exactly the entries that are
      not removable or whose deletion failed, each unchanged. */
  function Cleared(m: map<string, Entry>, failing: set<string>): (r: map<string, Entry>)
    ensures forall n :: n in r <==> n in m && (!Removable(m[n]) || n in failing)
    ensures forall n :: n in r ==> r[n] == m[n]
  {
    Survivors(m, failing, {})
  }

  /** Reaching one more pending entry removes it exactly when it is removable
      and its deletion does not fail. */
  lemma SurvivorsStep(m: map<string, Entry>, failing: set<string>, pending: set<string>, n: string)
    requires n in pending && n in m
    ensures Survivors(m, failing, pending - {n}) ==
      if Removable(m[n]) && n !in failing then Survivors(m, failing, pending) - {n}
      else Survivors(m, failing, pending)
  {
  }

  /** A second pass with the same failures deletes nothing more. */
  lemma ClearedIdempotent(m: map<string, Entry>, failing: set<string>)
    ensures Cleared(Cleared(m, failing), failing) == Cleared(m, failing)
  {
    var c := Cleared(m, failing);
    assert Cleared(c, failing).Keys == c.Keys;
  }
}
