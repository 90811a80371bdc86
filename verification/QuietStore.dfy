/** Two passes of the program, from a fresh installation, over a store that holds still while nothing
    fails: the theorems about passes, met by the program itself. */
module QuietStore {
  import opened MailStore
  import opened OpLog
  import opened Planner
  import opened Indexing
  import opened SyncPass
  import opened SyncProtocol
  import opened SyncEngine

  /** The first pass indexes exactly the live rows it can resolve, and the second finds nothing to do. */
  method BuildTwice(normalize: string -> string, store: Store, disk: Disk, disk': Disk)
    returns (indexed: map<Rowid, Doc>, first: Report, second: Report, ghost registry: Registry)
    requires store.Valid()
    ensures RegistryOf(normalize, store, registry)
    ensures indexed.Keys == store.LiveRows() - Unindexable(disk, registry, store)
    ensures first.reconciledDeletes == 0
    ensures second == EMPTY_REPORT
  {
    var host := new Host(normalize, store, true, true, true);
    assert AsMap(host.docs) == map[];
    hide IsRun, Init, Inv, PassDone, QuietPass, Unindexable, RegistryOf, AsMap, Went, LoadedIn, TallyOf, EditAll;
    var r, p := host.Run(disk);
    ghost var built, next := AsMap(host.docs), host.state;
    FirstPassIndexesAll(normalize, disk, store, p, built, r.value);
    var r', p' := host.Run(disk');
    indexed := AsMap(host.docs);
    NextPassIdle(normalize, disk, disk', store, FRESH_STATE, map[], p, built, r.value, p', indexed, r'.value);
    first, second, registry := r.value, r'.value, p.registry;
  }
}
