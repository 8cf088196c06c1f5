/**
 * Tables whose rows carry a unique reference, and what other writers can do to them: insert rows whose
 * reference is not taken.
 */
module UniqueRefs {

  datatype Keyed<T> = Keyed(sourceRef: string, row: T)

  ghost predicate Unique<T>(table: seq<Keyed<T>>) {
    forall i, j :: 0 <= i < j < |table| ==> table[i].sourceRef != table[j].sourceRef
  }

  predicate HasRef<T>(table: seq<Keyed<T>>, ref: string) {
    exists i :: 0 <= i < |table| && table[i].sourceRef == ref
  }

  /** What other writers manage to insert: rows whose reference is not taken yet. */
  function Others<T>(table: seq<Keyed<T>>, rows: seq<Keyed<T>>): seq<Keyed<T>> {
    if rows == [] then table
    else
      var t := Others(table, rows[..|rows| - 1]);
      var r := rows[|rows| - 1];
      if HasRef(t, r.sourceRef) then t else t + [r]
  }

  lemma {:induction false} OthersKeep<T>(table: seq<Keyed<T>>, rows: seq<Keyed<T>>)
    requires Unique(table)
    ensures Unique(Others(table, rows)) && table <= Others(table, rows)
  {
    if rows != [] { OthersKeep(table, rows[..|rows| - 1]); }
  }

  lemma RefStays<T>(a: seq<Keyed<T>>, b: seq<Keyed<T>>, ref: string)
    requires a <= b && HasRef(a, ref)
    ensures HasRef(b, ref)
  {
    var i :| 0 <= i < |a| && a[i].sourceRef == ref;
    assert b[i].sourceRef == ref;
  }

  lemma RefAfterAppend<T>(table: seq<Keyed<T>>, row: Keyed<T>)
    ensures forall ref :: HasRef(table + [row], ref) <==> (HasRef(table, ref) || ref == row.sourceRef)
  {
    forall ref ensures HasRef(table + [row], ref) <==> (HasRef(table, ref) || ref == row.sourceRef) {
      if HasRef(table, ref) { RefStays(table, table + [row], ref); }
      assert (table + [row])[|table|].sourceRef == row.sourceRef;
    }
  }
}
