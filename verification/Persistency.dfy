/** Loading and saving the records (Persistency.cpp, DataSerializer.cpp). A file is an ordered list of
    JSON members; reading and writing its bytes is not part of this model. */
module Persistency {
  import opened Options
  import opened EngineMachine
  import opened EngineHeap

  /** What the parser makes of the file. A member's value is `None` when it is not a string. */
  datatype File = NotThere | Unreadable | Members(items: seq<(string, Option<string>)>)

  /** The members that the loader passes on: all before the first one that is not a string. */
  function Loadable(items: seq<(string, Option<string>)>): (loaded: seq<(string, string)>)
    ensures |loaded| <= |items| && forall i | 0 <= i < |loaded| :: items[i] == (loaded[i].0, Some(loaded[i].1))
    ensures |loaded| < |items| ==> items[|loaded|].1 == None
  {
    if items == [] || items[0].1 == None then []
    else [(items[0].0, items[0].1.value)] + Loadable(items[1..])
  }

  function Records(file: File): seq<(string, string)> {
    if file.Members? then Loadable(file.items) else []
  }

  /** A plain map after these records have been set one after the other. */
  function Updated(m: Contents, records: seq<(string, string)>): Contents {
    if records == [] then m
    else
      var last := records[|records| - 1];
      Updated(m, records[..|records| - 1])[last.0 := last.1]
  }

  lemma UpdatedPush(m: Contents, records: seq<(string, string)>, i: nat)
    requires i < |records|
    ensures Updated(m, records[..i + 1]) == Updated(m, records[..i])[records[i].0 := records[i].1]
  {
    assert records[..i + 1][..i] == records[..i];
  }

  method LoadVisitor(engine: DataEngine, ghost t: Tid, name: string, value: string)
    requires engine.Valid() && t !in engine.state.threads && |engine.objs| < engine.capacity
    modifies engine, engine.buckets, engine.objs
    ensures engine.Valid() && engine.Grown() && t !in engine.state.threads && |engine.objs| == |old(engine.objs)| + 1
    ensures engine.Holding() == old(engine.Holding())[name := value]
  {
    engine.Set(t, name, value, true);
  }

  /** Sets every record, in the file's order; a later one for the same name wins. The count is of the
      records set, also when the file turns out to be broken half-way. */
  method InitialLoadData(engine: DataEngine, ghost t: Tid, file: File) returns (recordCount: nat, ok: bool)
    requires engine.Valid() && t !in engine.state.threads
    requires |engine.objs| + |Records(file)| <= engine.capacity
    modifies engine, engine.buckets, engine.objs
    ensures engine.Valid() && t !in engine.state.threads
    ensures engine.Holding() == Updated(old(engine.Holding()), Records(file))
    ensures recordCount == |Records(file)|
    ensures ok <==> file.NotThere? || (file.Members? && forall i | 0 <= i < |file.items| :: file.items[i].1.Some?)
  {
    recordCount, ok := 0, !file.Unreadable?;
    if file.Members? {
      ghost var records := Loadable(file.items);
      var i := 0;
      while i < |file.items| && ok
        invariant engine.Valid() && engine.Grown() && t !in engine.state.threads
        invariant recordCount == i <= |records| && |engine.objs| + |records| - i <= engine.capacity
        invariant engine.Holding() == Updated(old(engine.Holding()), records[..i])
        invariant if ok then forall j | 0 <= j < i :: file.items[j].1.Some? else i < |file.items| && file.items[i].1.None?
        decreases |file.items| - i, ok
      {
        match file.items[i].1
        case None => ok := false;
        case Some(value) =>
          UpdatedPush(old(engine.Holding()), records, i);
          LoadVisitor(engine, t, file.items[i].0, value);
          recordCount, i := recordCount + 1, i + 1;
      }
      assert records[..i] == records;
    }
  }

  /** Writes what the engine holds, each key once. No other call runs: the document keeps references
      to the stored strings until it has been written. */
  method StoreData(engine: DataEngine, ghost t: Tid) returns (document: seq<(string, string)>, recordCount: nat)
    requires engine.Valid() && t !in engine.state.threads
    modifies engine, engine.buckets, engine.objs
    ensures engine.Valid() && engine.Holding() == old(engine.Holding())
    ensures ListsExactly(document, engine.Holding()) && recordCount == |engine.Holding()|
  {
    ghost var visits;
    document, visits := engine.Enumerate(t, true);
    recordCount := |document|;
    ListedCount(document, engine.Holding());
  }

  lemma {:induction false} ListedCount(document: seq<(string, string)>, m: Contents)
    requires ListsExactly(document, m)
    ensures |document| == |m|
    decreases |document|
  {
    if document == [] {
      assert m == map[];
    } else {
      var init, last := document[..|document| - 1], document[|document| - 1];
      ListedWithout(document, m);
      ListedCount(init, m - {last.0});
      assert m.Keys == (m - {last.0}).Keys + {last.0};
    }
  }

  lemma ListedWithout(document: seq<(string, string)>, m: Contents)
    requires ListsExactly(document, m) && document != []
    ensures ListsExactly(document[..|document| - 1], m - {document[|document| - 1].0})
  {
    var init, last := document[..|document| - 1], document[|document| - 1];
    forall k | k in m - {last.0} ensures exists x :: 0 <= x < |init| && init[x].0 == k {
      var x :| 0 <= x < |document| && document[x].0 == k;
      assert init[x].0 == k;
    }
  }

  /** The file that `StoreData` writes, loaded into an empty engine, gives the same map back. */
  lemma {:induction false} ReloadRebuilds(document: seq<(string, string)>, m: Contents)
    requires ListsExactly(document, m)
    ensures Updated(map[], document) == m
    decreases |document|
  {
    if document == [] {
      assert m == map[];
    } else {
      var init, last := document[..|document| - 1], document[|document| - 1];
      ListedWithout(document, m);
      ReloadRebuilds(init, m - {last.0});
      assert (m - {last.0})[last.0 := last.1] == m;
    }
  }

  lemma {:induction false} StringsLoad(document: seq<(string, string)>)
    ensures Loadable(AsItems(document)) == document
  {
    if document != [] {
      assert AsItems(document)[1..] == AsItems(document[1..]);
      StringsLoad(document[1..]);
    }
  }

  function AsItems(document: seq<(string, string)>): seq<(string, Option<string>)> {
    seq(|document|, i requires 0 <= i < |document| => (document[i].0, Some(document[i].1)))
  }

  /** A restart: what one engine holds is stored and loaded into a new one with any number of
      buckets. The new one holds the same map, and both counts are the size of that map. */
  method Restart(engine: DataEngine, hash: string -> nat, bucketCount: nat, capacity: nat, ghost t: Tid)
    returns (next: DataEngine, stored: nat, loaded: nat)
    requires engine.Valid() && t !in engine.state.threads
    requires bucketCount > 0 && |engine.Holding()| <= capacity
    modifies engine, engine.buckets, engine.objs
    ensures next.Valid() && next.buckets.Length == bucketCount
    ensures next.Holding() == old(engine.Holding())
    ensures stored == loaded == |old(engine.Holding())|
  {
    var document, n := StoreData(engine, t);
    ListedCount(document, engine.Holding());
    StringsLoad(document);
    ReloadRebuilds(document, engine.Holding());
    next := new DataEngine(hash, bucketCount, capacity);
    var m, ok := InitialLoadData(next, t, Members(AsItems(document)));
    stored, loaded := n, m;
  }
}
