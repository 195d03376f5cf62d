/**
 * The key-value store of a thread: a program edits a copy of it in its worker and the host merges
 * the edits back as a delta.  Values are their JSON text; `bytes` measures a text.
 */
module CellStore {
  import opened Wrappers

  const MAX_BYTES := 1048576
  const MAX_VALUE_BYTES := 262144

  type Store = map<string, string>

  // What a program did to each key it touched: a new value, or none for a deletion.
  type Writes = map<string, Option<string>>

  function Size(bytes: string -> nat, key: string, json: string): nat {
    bytes(key) + bytes(json)
  }

  // The summed size of all entries.
  ghost function Total(bytes: string -> nat, store: Store): nat
    decreases |store|
  {
    if store == map[] then 0
    else
      var key :| key in store;
      Size(bytes, key, store[key]) + Total(bytes, store - {key})
  }

  // Any entry can be taken out of the sum.
  lemma {:induction false} TotalWithout(bytes: string -> nat, store: Store, key: string)
    requires key in store
    ensures Total(bytes, store) == Size(bytes, key, store[key]) + Total(bytes, store - {key})
    decreases |store|
  {
    var first :|
      first in store && Total(bytes, store) == Size(bytes, first, store[first]) + Total(bytes, store - {first});
    if first != key {
      TotalWithout(bytes, store - {first}, key);
      TotalWithout(bytes, store - {key}, first);
      assert store - {first} - {key} == store - {key} - {first};
    }
  }

  lemma TotalWith(bytes: string -> nat, store: Store, key: string, json: string)
    ensures Total(bytes, store[key := json]) == Size(bytes, key, json) + Total(bytes, store - {key})
  {
    TotalWithout(bytes, store[key := json], key);
    assert store[key := json] - {key} == store - {key};
  }

  // ---------------------------------------------------------------- the delta

  function Deleted(writes: Writes): set<string> {
    set key | key in writes && writes[key].None?
  }

  function Assigned(writes: Writes): Store {
    map key | key in writes && writes[key].Some? :: writes[key].value
  }

  // Deletions first, then assignments.
  function Merge(store: Store, puts: Store, deleted: set<string>): Store {
    (store - deleted) + puts
  }

  function Replayed(store: Store, writes: Writes): Store {
    Merge(store, Assigned(writes), Deleted(writes))
  }

  lemma ReplaySet(store: Store, writes: Writes, key: string, json: string)
    ensures Replayed(store, writes[key := Some(json)]) == Replayed(store, writes)[key := json]
  {
  }

  lemma ReplayDelete(store: Store, writes: Writes, key: string)
    ensures Replayed(store, writes[key := None]) == Replayed(store, writes) - {key}
  {
  }

  // ---------------------------------------------------------------- one program's copy

  datatype Cell = Cell(snapshot: Store, store: Store, writes: Writes, size: int)

  predicate MaySet(bytes: string -> nat, c: Cell, key: string, json: string) {
    bytes(json) <= MAX_VALUE_BYTES
    && c.size - (if key in c.store then Size(bytes, key, c.store[key]) else 0) + Size(bytes, key, json) <= MAX_BYTES
  }

  function AfterSet(bytes: string -> nat, c: Cell, key: string, json: string): Cell {
    if !MaySet(bytes, c, key, json) then c
    else
      var previous := if key in c.store then Size(bytes, key, c.store[key]) else 0;
      Cell(c.snapshot, c.store[key := json], c.writes[key := Some(json)], c.size + Size(bytes, key, json) - previous)
  }

  function AfterDelete(bytes: string -> nat, c: Cell, key: string): Cell {
    var previous := if key in c.store then Size(bytes, key, c.store[key]) else 0;
    Cell(c.snapshot, c.store - {key}, c.writes[key := None], c.size - previous)
  }

  // The running size is the true one and within the limit, and the log replayed on the snapshot
  // gives the copy.
  ghost predicate CellInv(bytes: string -> nat, c: Cell) {
    c.size == Total(bytes, c.store) <= MAX_BYTES && c.store == Replayed(c.snapshot, c.writes)
  }

  lemma SetKeepsInv(bytes: string -> nat, c: Cell, key: string, json: string)
    requires CellInv(bytes, c)
    ensures CellInv(bytes, AfterSet(bytes, c, key, json))
  {
    TotalWith(bytes, c.store, key, json);
    if key in c.store {
      TotalWithout(bytes, c.store, key);
    } else {
      assert c.store - {key} == c.store;
    }
    ReplaySet(c.snapshot, c.writes, key, json);
  }

  lemma DeleteKeepsInv(bytes: string -> nat, c: Cell, key: string)
    requires CellInv(bytes, c)
    ensures CellInv(bytes, AfterDelete(bytes, c, key))
  {
    if key in c.store {
      TotalWithout(bytes, c.store, key);
    } else {
      assert c.store - {key} == c.store;
    }
    ReplayDelete(c.snapshot, c.writes, key);
  }

  // A set is refused exactly when the value, or the store with it, would be too large.
  lemma SetIsRefusedOnlyForSize(bytes: string -> nat, c: Cell, key: string, json: string)
    requires CellInv(bytes, c)
    ensures MaySet(bytes, c, key, json)
            <==> bytes(json) <= MAX_VALUE_BYTES && Total(bytes, c.store[key := json]) <= MAX_BYTES
  {
    TotalWith(bytes, c.store, key, json);
    if key in c.store {
      TotalWithout(bytes, c.store, key);
    } else {
      assert c.store - {key} == c.store;
    }
  }

  // ---------------------------------------------------------------- programs and host together

  datatype World = World(host: Store, cells: map<nat, Cell>)

  datatype Step =
    | Open(id: nat)
    | Set(id: nat, key: string, json: string)
    | Delete(id: nat, key: string)
    | Save(id: nat)
    | Drop(id: nat)

  ghost predicate MaySave(bytes: string -> nat, host: Store, writes: Writes) {
    Total(bytes, Replayed(host, writes)) <= MAX_BYTES
  }

  ghost function Saved(bytes: string -> nat, host: Store, writes: Writes): Store {
    if MaySave(bytes, host, writes) then Replayed(host, writes) else host
  }

  ghost function Next(bytes: string -> nat, w: World, step: Step): World {
    match step
    case Open(id) => w.(cells := w.cells[id := Cell(w.host, w.host, map[], Total(bytes, w.host))])
    case Set(id, key, json) =>
      if id in w.cells then w.(cells := w.cells[id := AfterSet(bytes, w.cells[id], key, json)]) else w
    case Delete(id, key) =>
      if id in w.cells then w.(cells := w.cells[id := AfterDelete(bytes, w.cells[id], key)]) else w
    case Save(id) =>
      if id in w.cells then World(Saved(bytes, w.host, w.cells[id].writes), w.cells - {id}) else w
    case Drop(id) => w.(cells := w.cells - {id})
  }

  ghost function Run(bytes: string -> nat, w: World, trace: seq<Step>): World
    decreases |trace|
  {
    if trace == [] then w else Run(bytes, Next(bytes, w, trace[0]), trace[1..])
  }

  ghost predicate Inv(bytes: string -> nat, w: World) {
    Total(bytes, w.host) <= MAX_BYTES && forall id :: id in w.cells ==> CellInv(bytes, w.cells[id])
  }

  lemma NextKeepsInv(bytes: string -> nat, w: World, step: Step)
    requires Inv(bytes, w)
    ensures Inv(bytes, Next(bytes, w, step))
  {
    match step {
      case Open(id) => assert Replayed(w.host, map[]) == w.host;
      case Set(id, key, json) =>
        if id in w.cells {
          SetKeepsInv(bytes, w.cells[id], key, json);
        }
      case Delete(id, key) =>
        if id in w.cells {
          DeleteKeepsInv(bytes, w.cells[id], key);
        }
      case Save(id) =>
      case Drop(id) =>
    }
  }

  lemma {:induction false} RunKeepsInv(bytes: string -> nat, w: World, trace: seq<Step>)
    requires Inv(bytes, w)
    ensures Inv(bytes, Run(bytes, w, trace))
    decreases |trace|
  {
    if trace != [] {
      NextKeepsInv(bytes, w, trace[0]);
      RunKeepsInv(bytes, Next(bytes, w, trace[0]), trace[1..]);
    }
  }

  const EMPTY := World(map[], map[])

  // However many programs edit and save: every copy is its snapshot with its log replayed, counted
  // exactly, and neither a copy nor the host ever exceeds the limit.
  lemma StoresStayWithinLimit(bytes: string -> nat, trace: seq<Step>, id: nat)
    ensures var w := Run(bytes, EMPTY, trace);
            Total(bytes, w.host) <= MAX_BYTES && (id in w.cells ==> CellInv(bytes, w.cells[id]))
  {
    RunKeepsInv(bytes, EMPTY, trace);
  }

  // Saving on a host that is as the program found it always succeeds and leaves exactly the
  // program's copy.
  lemma SaveOnUnchangedHost(bytes: string -> nat, trace: seq<Step>, id: nat)
    requires var w := Run(bytes, EMPTY, trace); id in w.cells && w.host == w.cells[id].snapshot
    ensures var w := Run(bytes, EMPTY, trace);
            MaySave(bytes, w.host, w.cells[id].writes) && Next(bytes, w, Save(id)).host == w.cells[id].store
  {
    RunKeepsInv(bytes, EMPTY, trace);
  }

  // On a host other programs have changed, a save writes the keys of its log and no others, or, when
  // the result would be too large, nothing at all.
  lemma SaveOnChangedHost(bytes: string -> nat, w: World, id: nat, key: string)
    requires id in w.cells
    ensures var writes := w.cells[id].writes;
            var host := Next(bytes, w, Save(id)).host;
            if !MaySave(bytes, w.host, writes) then host == w.host
            else if key !in writes then (key in host <==> key in w.host) && (key in host ==> host[key] == w.host[key])
            else (key in host <==> writes[key].Some?) && (key in host ==> host[key] == writes[key].value)
  {
  }

  // Two programs that opened the same store and touched different keys leave the same store whichever
  // saves first, when both fit.
  lemma DisjointSavesCommute(bytes: string -> nat, host: Store, a: Writes, b: Writes)
    requires a.Keys !! b.Keys
    requires MaySave(bytes, host, a) && MaySave(bytes, host, b) && MaySave(bytes, Replayed(host, a), b)
    ensures Saved(bytes, Saved(bytes, host, a), b) == Saved(bytes, Saved(bytes, host, b), a)
  {
    forall key
      ensures At(Replayed(Replayed(host, a), b), key) == At(Replayed(Replayed(host, b), a), key)
    {
      ReplayedAt(host, a, key);
      ReplayedAt(host, b, key);
      ReplayedAt(Replayed(host, a), b, key);
      ReplayedAt(Replayed(host, b), a, key);
    }
    SameEntries(Replayed(Replayed(host, a), b), Replayed(Replayed(host, b), a));
  }

  function At(store: Store, key: string): Option<string> {
    if key in store then Some(store[key]) else None
  }

  lemma ReplayedAt(store: Store, writes: Writes, key: string)
    ensures At(Replayed(store, writes), key) == if key in writes then writes[key] else At(store, key)
  {
  }

  lemma SameEntries(a: Store, b: Store)
    requires forall key :: At(a, key) == At(b, key)
    ensures a == b
  {
    forall key
      ensures key in a <==> key in b
      ensures key in a && key in b ==> a[key] == b[key]
    {
      assert At(a, key) == At(b, key);
    }
  }

  // ---------------------------------------------------------------- the classes

  method Copy(bytes: string -> nat, snapshot: Store) returns (store: Store, size: int)
    ensures store == snapshot && size == Total(bytes, snapshot)
  {
    store, size := map[], 0;
    var rest := snapshot;
    while rest != map[]
      invariant rest.Keys <= snapshot.Keys && size + Total(bytes, rest) == Total(bytes, snapshot)
      invariant forall key :: key in snapshot ==>
                  At(snapshot, key) == if key in rest then At(rest, key) else At(store, key)
      invariant store.Keys <= snapshot.Keys
      decreases |rest|
    {
      var key :| key in rest;
      TotalWithout(bytes, rest, key);
      store := store[key := rest[key]];
      size := size + Size(bytes, key, rest[key]);
      rest := rest - {key};
    }
    SameEntries(store, snapshot);
  }

  class Worker {
    const bytes: string -> nat
    ghost const snapshot: Store
    var store: Store
    var writes: Writes
    var size: int

    // The snapshot is copied entry by entry.
    constructor (bytes: string -> nat, snapshot: Store)
      ensures this.bytes == bytes && this.snapshot == snapshot
      ensures Now() == Cell(snapshot, snapshot, map[], Total(bytes, snapshot))
    {
      this.bytes, this.snapshot := bytes, snapshot;
      var copy, total := Copy(bytes, snapshot);
      store, writes, size := copy, map[], total;
    }

    ghost function Now(): Cell
      reads this
    {
      Cell(snapshot, store, writes, size)
    }

    method Set(key: string, json: string) returns (error: Option<string>)
      requires CellInv(bytes, Now())
      modifies this
      ensures CellInv(bytes, Now()) && Now() == AfterSet(bytes, old(Now()), key, json)
      ensures error.None? <==> old(MaySet(bytes, Now(), key, json))
    {
      SetKeepsInv(bytes, Now(), key, json);
      if bytes(json) > MAX_VALUE_BYTES {
        return Some("value exceeds its limit");
      }
      var previous := if key in store then Size(bytes, key, store[key]) else 0;
      if size - previous + Size(bytes, key, json) > MAX_BYTES {
        return Some("store would exceed its limit");
      }
      size := size + (Size(bytes, key, json) - previous);
      store := store[key := json];
      writes := writes[key := Some(json)];
      error := None;
    }

    method Delete(key: string)
      requires CellInv(bytes, Now())
      modifies this
      ensures CellInv(bytes, Now()) && Now() == AfterDelete(bytes, old(Now()), key)
    {
      DeleteKeepsInv(bytes, Now(), key);
      if key in store {
        size := size - Size(bytes, key, store[key]);
      }
      store := store - {key};
      writes := writes[key := None];
    }

    // The log, split into assignments and deletions.
    method StoreWrites() returns (puts: Store, deleted: set<string>)
      ensures puts == Assigned(writes) && deleted == Deleted(writes)
      ensures forall base :: Merge(base, puts, deleted) == Replayed(base, writes)
    {
      puts, deleted := map[], {};
      var todo := writes.Keys;
      while todo != {}
        invariant todo <= writes.Keys
        invariant puts == map key | key in writes && key !in todo && writes[key].Some? :: writes[key].value
        invariant deleted == set key | key in writes && key !in todo && writes[key].None?
        decreases |todo|
      {
        var key :| key in todo;
        todo := todo - {key};
        if writes[key].None? {
          deleted := deleted + {key};
        } else {
          puts := puts[key := writes[key].value];
        }
      }
    }
  }

  class Host {
    const bytes: string -> nat
    var values: Store

    constructor (bytes: string -> nat)
      ensures this.bytes == bytes && values == map[]
    {
      this.bytes := bytes;
      values := map[];
    }

    method Sum(store: Store) returns (total: nat)
      ensures total == Total(bytes, store)
    {
      total := 0;
      var rest := store;
      while rest != map[]
        invariant total + Total(bytes, rest) == Total(bytes, store)
        decreases |rest|
      {
        var key :| key in rest;
        TotalWithout(bytes, rest, key);
        total := total + Size(bytes, key, rest[key]);
        rest := rest - {key};
      }
    }

    // A trial merge decides; the real one is made only when it fits.
    method TryApply(puts: Store, deleted: set<string>) returns (ok: bool)
      modifies this
      ensures ok <==> Total(bytes, Merge(old(values), puts, deleted)) <= MAX_BYTES
      ensures values == if ok then Merge(old(values), puts, deleted) else old(values)
    {
      var merged := (values - deleted) + puts;
      var total := Sum(merged);
      if total > MAX_BYTES {
        return false;
      }
      values := values - deleted;
      values := values + puts;
      ok := true;
    }
  }
}
