/** The view refresh of the gateway, over the connections of its DuckDB pool. */
module ViewCache {
  import opened Prelude

  // ---------------------------------------------------------------- one connection's views

  datatype Name = Name(space: string, table: string)

  datatype Table = Table(name: string, location: string)

  /** Each view scans a metadata location. */
  type Views = map<Name, string>

  function View(v: Views, k: Name): Option<string> {
    if k in v then Some(v[k]) else None
  }

  /** One source connection: its namespace and the tables its catalog resolved. */
  datatype Resolved = Resolved(namespace: string, tables: seq<Table>)

  /** How one connection's statements went on one DuckDB connection: the creations that failed,
      the listing of the namespace's views (None when the query failed), the drops that fail. */
  datatype Answers = Answers(failedCreates: set<string>, listing: Option<seq<string>>, failedDrops: set<string>)

  datatype Round = Round(c: Resolved, a: Answers)

  function TableNames(tables: seq<Table>): set<string> {
    set t | t in tables :: t.name
  }

  function Created(v: Views, ns: string, tables: seq<Table>, failed: set<string>): Views {
    if tables == [] then v
    else
      var n := |tables| - 1;
      var before := Created(v, ns, tables[..n], failed);
      if tables[n].name in failed then before else before[Name(ns, tables[n].name) := tables[n].location]
  }

  /** The prune loop: the first drop that fails ends it. */
  function Pruned(v: Views, ns: string, desired: set<string>, existing: seq<string>, failed: set<string>): Views {
    if existing == [] then v
    else if existing[0] in desired then Pruned(v, ns, desired, existing[1..], failed)
    else if existing[0] in failed then v
    else Pruned(v - {Name(ns, existing[0])}, ns, desired, existing[1..], failed)
  }

  function RefreshedOne(v: Views, r: Round): Views {
    var created := Created(v, r.c.namespace, r.c.tables, r.a.failedCreates);
    if r.a.listing.None? then created
    else Pruned(created, r.c.namespace, TableNames(r.c.tables), r.a.listing.value, r.a.failedDrops)
  }

  function Refreshed(v: Views, rounds: seq<Round>): Views {
    if rounds == [] then v
    else
      var n := |rounds| - 1;
      RefreshedOne(Refreshed(v, rounds[..n]), rounds[n])
  }

  /** `existing` lists the namespace's views, each once, in some order. */
  ghost predicate IsListing(v: Views, ns: string, existing: seq<string>) {
    && (forall i, j :: 0 <= i < j < |existing| ==> existing[i] != existing[j])
    && (forall name :: name in existing <==> Name(ns, name) in v)
  }

  /** Every listing that succeeded shows the views there were at its time. */
  ghost predicate Consistent(v: Views, rounds: seq<Round>) {
    if rounds == [] then true
    else
      var n := |rounds| - 1;
      var r := rounds[n];
      && Consistent(v, rounds[..n])
      && (r.a.listing.Some? ==>
            IsListing(Created(Refreshed(v, rounds[..n]), r.c.namespace, r.c.tables, r.a.failedCreates), r.c.namespace, r.a.listing.value))
  }

  /** Where the catalog has a table of that name. */
  function LocationOf(tables: seq<Table>, name: string): Option<string> {
    if tables == [] then None
    else
      var last := tables[|tables| - 1];
      if last.name == name then Some(last.location) else LocationOf(tables[..|tables| - 1], name)
  }

  /** A drop of a stale view failed at `name` or before it in listing order. */
  ghost predicate Blocked(desired: set<string>, existing: seq<string>, failed: set<string>, name: string) {
    exists i, j :: 0 <= i <= j < |existing| && existing[j] == name && existing[i] !in desired && existing[i] in failed
  }

  /** What a view of the round's namespace should show, given what it showed before. */
  ghost function Shown(before: Option<string>, r: Round, name: string): Option<string> {
    match LocationOf(r.c.tables, name)
    case Some(location) => if name in r.a.failedCreates then before else Some(location)
    case None =>
      if r.a.listing.None? || Blocked(TableNames(r.c.tables), r.a.listing.value, r.a.failedDrops, name) then before else None
  }

  lemma {:induction false} LocationOfNames(tables: seq<Table>, name: string)
    ensures LocationOf(tables, name).Some? <==> name in TableNames(tables)
  {
    if tables != [] {
      var init, last := tables[..|tables| - 1], tables[|tables| - 1];
      LocationOfNames(init, name);
      assert tables == init + [last];
      assert forall t :: t in tables <==> t in init || t == last;
    }
  }

  lemma {:induction false} CreatedViews(v: Views, ns: string, tables: seq<Table>, failed: set<string>, k: Name)
    ensures View(Created(v, ns, tables, failed), k) ==
            if k.space == ns && k.table !in failed && LocationOf(tables, k.table).Some?
            then LocationOf(tables, k.table) else View(v, k)
  {
    if tables != [] {
      CreatedViews(v, ns, tables[..|tables| - 1], failed, k);
    }
  }

  lemma {:induction false} PrunedSpares(v: Views, ns: string, desired: set<string>, existing: seq<string>, failed: set<string>, k: Name)
    requires k.space != ns || k.table in desired || k.table !in existing
    ensures View(Pruned(v, ns, desired, existing, failed), k) == View(v, k)
  {
    if existing != [] {
      assert existing == [existing[0]] + existing[1..];
      PrunedSpares(v, ns, desired, existing[1..], failed, k);
      PrunedSpares(v - {Name(ns, existing[0])}, ns, desired, existing[1..], failed, k);
    }
  }

  lemma BlockedStep(desired: set<string>, existing: seq<string>, failed: set<string>, name: string)
    requires existing != [] && name in existing
    ensures existing[0] !in desired && existing[0] in failed ==> Blocked(desired, existing, failed, name)
    ensures !(existing[0] !in desired && existing[0] in failed) && name in existing[1..] ==>
              (Blocked(desired, existing, failed, name) <==> Blocked(desired, existing[1..], failed, name))
  {
    var rest := existing[1..];
    if existing[0] !in desired && existing[0] in failed {
      var j :| 0 <= j < |existing| && existing[j] == name;
      assert existing[0] == existing[0];
    } else if name in rest {
      if Blocked(desired, rest, failed, name) {
        var i, j :| 0 <= i <= j < |rest| && rest[j] == name && rest[i] !in desired && rest[i] in failed;
        assert existing[i + 1] == rest[i] && existing[j + 1] == rest[j];
      }
      if Blocked(desired, existing, failed, name) {
        var i, j :| 0 <= i <= j < |existing| && existing[j] == name && existing[i] !in desired && existing[i] in failed;
        assert rest[i - 1] == existing[i] && rest[j - 1] == existing[j];
      }
    }
  }

  /** A stale view survives the prune exactly when a drop failed at it or before it. */
  lemma {:induction false} PrunedStale(v: Views, ns: string, desired: set<string>, existing: seq<string>, failed: set<string>, name: string)
    requires forall i, j :: 0 <= i < j < |existing| ==> existing[i] != existing[j]
    requires name in existing && name !in desired
    ensures View(Pruned(v, ns, desired, existing, failed), Name(ns, name)) ==
            if Blocked(desired, existing, failed, name) then View(v, Name(ns, name)) else None
    ensures Blocked(desired, existing, failed, name) <==>
            exists i, j :: 0 <= i <= j < |existing| && existing[j] == name && existing[i] !in desired && existing[i] in failed
  {
    var k, head, rest := Name(ns, name), existing[0], existing[1..];
    assert existing == [head] + rest;
    BlockedStep(desired, existing, failed, name);
    if head in desired {
      PrunedStale(v, ns, desired, rest, failed, name);
    } else if head !in failed {
      var w := v - {Name(ns, head)};
      if head == name {
        PrunedSpares(w, ns, desired, rest, failed, k);
        assert forall j :: 0 <= j < |existing| && existing[j] == name ==> j == 0;
        assert !Blocked(desired, existing, failed, name);
      } else {
        PrunedStale(w, ns, desired, rest, failed, name);
      }
    }
  }

  lemma RefreshedOneView(v: Views, r: Round, k: Name)
    requires r.a.listing.Some? ==>
               IsListing(Created(v, r.c.namespace, r.c.tables, r.a.failedCreates), r.c.namespace, r.a.listing.value)
    ensures View(RefreshedOne(v, r), k) == if k.space == r.c.namespace then Shown(View(v, k), r, k.table) else View(v, k)
  {
    hide Created, LocationOf, Pruned, Blocked;
    var created := Created(v, r.c.namespace, r.c.tables, r.a.failedCreates);
    var desired := TableNames(r.c.tables);
    CreatedViews(v, r.c.namespace, r.c.tables, r.a.failedCreates, k);
    LocationOfNames(r.c.tables, k.table);
    if r.a.listing.Some? {
      var existing := r.a.listing.value;
      if k.space == r.c.namespace && k.table !in desired && k.table in existing {
        PrunedStale(created, r.c.namespace, desired, existing, r.a.failedDrops, k.table);
      } else {
        PrunedSpares(created, r.c.namespace, desired, existing, r.a.failedDrops, k);
        assert k.space == r.c.namespace && k.table !in desired ==> k !in created;
      }
    }
  }

  /** Namespaces are UNIQUE in the table of connections. */
  ghost predicate DistinctNamespaces(rounds: seq<Round>) {
    forall i, j :: 0 <= i < j < |rounds| ==> rounds[i].c.namespace != rounds[j].c.namespace
  }

  lemma {:induction false} RefreshUntouched(v: Views, rounds: seq<Round>, k: Name)
    requires Consistent(v, rounds)
    requires forall r :: r in rounds ==> r.c.namespace != k.space
    ensures View(Refreshed(v, rounds), k) == View(v, k)
  {
    hide RefreshedOne;
    if rounds != [] {
      var init, last := rounds[..|rounds| - 1], rounds[|rounds| - 1];
      assert last in rounds;
      RefreshUntouched(v, init, k);
      RefreshedOneView(Refreshed(v, init), last, k);
    }
  }

  /** MAIN: after a refresh, whichever statements failed in it, each view of a refreshed namespace
      shows the catalog's location, or its old self where its own creation failed; a stale view is
      gone unless the listing failed or a drop failed at or before it; a view of any other
      namespace shows what it showed before. */
  lemma {:induction false} RefreshAgrees(v: Views, rounds: seq<Round>, k: Name)
    requires DistinctNamespaces(rounds) && Consistent(v, rounds)
    ensures forall r :: r in rounds && r.c.namespace == k.space ==> View(Refreshed(v, rounds), k) == Shown(View(v, k), r, k.table)
    ensures (forall r :: r in rounds ==> r.c.namespace != k.space) ==> View(Refreshed(v, rounds), k) == View(v, k)
  {
    hide RefreshedOne, Shown;
    if rounds != [] {
      var init, last := rounds[..|rounds| - 1], rounds[|rounds| - 1];
      assert rounds == init + [last];
      assert forall r :: r in rounds <==> r in init || r == last;
      RefreshedOneView(Refreshed(v, init), last, k);
      if last.c.namespace == k.space {
        RefreshUntouched(v, init, k);
      } else {
        RefreshAgrees(v, init, k);
      }
    }
  }

  /** MAIN: the cases of that, name by name: a resolved table's view scans its location unless its
      own creation failed, then it is as before; a name without a table has no view, unless the
      listing failed or a drop at it or before it, then it is as before. */
  lemma ViewAfterRefresh(v: Views, rounds: seq<Round>, r: Round, name: string)
    requires DistinctNamespaces(rounds) && Consistent(v, rounds) && r in rounds
    requires forall i, j :: 0 <= i < j < |r.c.tables| ==> r.c.tables[i].name != r.c.tables[j].name
    ensures var after, before := View(Refreshed(v, rounds), Name(r.c.namespace, name)), View(v, Name(r.c.namespace, name));
            && (forall t :: t in r.c.tables && t.name == name && name !in r.a.failedCreates ==> after == Some(t.location))
            && (forall t :: t in r.c.tables && t.name == name && name in r.a.failedCreates ==> after == before)
            && ((forall t :: t in r.c.tables ==> t.name != name) ==>
                  && (r.a.listing.None? ==> after == before)
                  && (r.a.listing.Some? && Blocked(TableNames(r.c.tables), r.a.listing.value, r.a.failedDrops, name) ==> after == before)
                  && (r.a.listing.Some? && !Blocked(TableNames(r.c.tables), r.a.listing.value, r.a.failedDrops, name) ==> after == None))
  {
    RefreshAgrees(v, rounds, Name(r.c.namespace, name));
    hide Refreshed, Consistent, Blocked;
    LocationOfNames(r.c.tables, name);
    forall t | t in r.c.tables && t.name == name
      ensures LocationOf(r.c.tables, name) == Some(t.location)
    {
      OnlyLocation(r.c.tables, t);
    }
  }

  lemma {:induction false} OnlyLocation(tables: seq<Table>, t: Table)
    requires forall i, j :: 0 <= i < j < |tables| ==> tables[i].name != tables[j].name
    requires t in tables
    ensures LocationOf(tables, t.name) == Some(t.location)
  {
    var init, last := tables[..|tables| - 1], tables[|tables| - 1];
    assert tables == init + [last];
    if t != last {
      assert t in init;
      OnlyLocation(init, t);
    }
  }

  // ---------------------------------------------------------------- what the catalogs answered

  /** A listed table, and its location unless loading it failed. */
  datatype Listed = Listed(name: string, location: Option<string>)

  /** One catalog's answers; None where the listing itself failed. */
  datatype Listing = Listing(namespace: string, tables: Option<seq<Listed>>)

  function Loaded(tables: seq<Listed>): seq<Table> {
    if tables == [] then []
    else
      var last := tables[|tables| - 1];
      Loaded(tables[..|tables| - 1]) + if last.location.Some? then [Table(last.name, last.location.value)] else []
  }

  function Resolve(l: Listing): Resolved {
    Resolved(l.namespace, if l.tables.None? then [] else Loaded(l.tables.value))
  }

  /** `_resolve_tables` drops a table whose load fails, and everything when the listing fails. */
  method ResolveTables(l: Listing) returns (c: Resolved)
    ensures c == Resolve(l)
  {
    var out: seq<Table> := [];
    if l.tables.Some? {
      var idents := l.tables.value;
      for i := 0 to |idents|
        invariant out == Loaded(idents[..i])
      {
        assert idents[..i + 1][..i] == idents[..i];
        if idents[i].location.Some? {
          out := out + [Table(idents[i].name, idents[i].location.value)];
        }
      }
      assert idents[..|idents|] == idents;
    }
    return Resolved(l.namespace, out);
  }

  lemma {:induction false} LoadedLocation(tables: seq<Listed>, name: string, location: string)
    requires forall i, j :: 0 <= i < j < |tables| ==> tables[i].name != tables[j].name
    ensures LocationOf(Loaded(tables), name) == Some(location) <==> Listed(name, Some(location)) in tables
    ensures LocationOf(Loaded(tables), name).Some? ==> exists l :: l in tables && l.name == name
  {
    if tables != [] {
      var init, last := tables[..|tables| - 1], tables[|tables| - 1];
      LoadedLocation(init, name, location);
      assert tables == init + [last];
      assert forall l :: l in tables <==> l in init || l == last;
      assert forall l :: l in init ==> l.name != last.name;
      if last.location.Some? {
        assert (Loaded(init) + [Table(last.name, last.location.value)])[..|Loaded(init)|] == Loaded(init);
      } else {
        assert Loaded(init) + [] == Loaded(init);
      }
    }
  }

  /** MAIN: after a refresh without failed statements a view of a connection's namespace scans a
      location exactly when the catalog listed the table and loaded it from there: one failed
      load drops one view, a failed listing all of them, however good the views were before. */
  lemma ViewsAreWhatTheCatalogAnswered(v: Views, rounds: seq<Round>, r: Round, l: Listing, name: string, location: string)
    requires DistinctNamespaces(rounds) && Consistent(v, rounds)
    requires r in rounds && r.c == Resolve(l) && r.a.failedCreates == {} && r.a.listing.Some? && r.a.failedDrops == {}
    requires l.tables.Some? ==>
               forall i, j :: 0 <= i < j < |l.tables.value| ==> l.tables.value[i].name != l.tables.value[j].name
    ensures View(Refreshed(v, rounds), Name(l.namespace, name)) == Some(location) <==>
            l.tables.Some? && Listed(name, Some(location)) in l.tables.value
  {
    hide Refreshed;
    RefreshAgrees(v, rounds, Name(l.namespace, name));
    if l.tables.Some? {
      LoadedLocation(l.tables.value, name, location);
    }
  }

  // ---------------------------------------------------------------- the objects

  lemma NoNames()
    ensures TableNames([]) == {}
  {}

  lemma MoreNames(tables: seq<Table>, t: Table)
    ensures TableNames(tables + [t]) == TableNames(tables) + {t.name}
  {}

  class DuckConn {
    var views: Views

    constructor ()
      ensures views == map[]
    {
      views := map[];
    }

    /** `_apply`. Registering the secret or creating the schema of round `stop` raises; with
        `stop == |rounds|` nothing does. */
    method ApplyRefresh(rounds: seq<Round>, stop: nat) returns (ok: bool)
      requires stop <= |rounds|
      modifies this
      ensures views == Refreshed(old(views), rounds[..stop])
      ensures ok == (stop == |rounds|)
    {
      var i := 0;
      while i < |rounds|
        invariant 0 <= i <= stop
        invariant views == Refreshed(old(views), rounds[..i])
      {
        if i == stop {
          return false;
        }
        assert rounds[..i + 1][..i] == rounds[..i];
        RefreshNamespace(rounds[i]);
        i := i + 1;
      }
      return true;
    }

    /** Create what the catalog has, then drop what it no longer has. */
    method RefreshNamespace(r: Round)
      modifies this
      ensures views == RefreshedOne(old(views), r)
    {
      hide TableNames, Pruned;
      var ns, tables := r.c.namespace, r.c.tables;
      var desired: set<string> := {};
      NoNames();
      for i := 0 to |tables|
        invariant desired == TableNames(tables[..i])
        invariant views == Created(old(views), ns, tables[..i], r.a.failedCreates)
      {
        var t := tables[i];
        assert tables[..i + 1] == tables[..i] + [t];
        assert tables[..i + 1][..i] == tables[..i];
        MoreNames(tables[..i], t);
        desired := desired + {t.name};
        if t.name !in r.a.failedCreates {
          views := views[Name(ns, t.name) := t.location];
        }
      }
      assert tables[..|tables|] == tables;
      if r.a.listing.Some? {
        Prune(ns, desired, r.a.listing.value, r.a.failedDrops);
      }
    }

    /** The body of the `try`: one DROP for each listed view without a table. */
    method Prune(ns: string, desired: set<string>, existing: seq<string>, failed: set<string>)
      modifies this
      ensures views == Pruned(old(views), ns, desired, existing, failed)
    {
      for i := 0 to |existing|
        invariant Pruned(views, ns, desired, existing[i..], failed) == Pruned(old(views), ns, desired, existing, failed)
      {
        assert existing[i..][1..] == existing[i + 1..];
        if existing[i] !in desired {
          if existing[i] in failed {
            return;
          }
          views := views - {Name(ns, existing[i])};
        }
      }
    }
  }

  /** One visit of a refresh: how the rounds go on that DuckDB connection, and where it raises. */
  datatype Visit = Visit(rounds: seq<Round>, stop: nat)

  /** The queue after `i` visits is a rotation; taking its head and returning it rotates on. */
  lemma FrontOfQueue<T>(start: seq<T>, i: nat, head: T, rest: seq<T>)
    requires i < |start| && start[i..] + start[..i] == [head] + rest
    ensures head == start[i]
    ensures rest + [head] == start[i + 1..] + start[..i + 1]
  {
    var queue := start[i..] + start[..i];
    assert queue[0] == head && queue[1..] == rest;
    assert queue[1..] == start[i + 1..] + start[..i];
  }

  class DuckDBPool {
    const size: nat
    var available: seq<DuckConn>

    constructor (conns: seq<DuckConn>)
      ensures size == |conns| && available == conns
    {
      size, available := |conns|, conns;
    }

    ghost predicate Idle()
      reads this
    {
      |available| == size && forall i, j :: 0 <= i < j < |available| ==> available[i] != available[j]
    }

    /** None when the wait for a free connection times out. */
    method AcquireConn() returns (conn: Option<DuckConn>)
      modifies this
      ensures conn.None? <==> old(available) == []
      ensures conn.None? ==> available == []
      ensures conn.Some? ==> old(available) == [conn.value] + available
    {
      if available == [] {
        return None;
      }
      conn := Some(available[0]);
      available := available[1..];
    }

    method ReleaseConn(conn: DuckConn)
      modifies this
      ensures available == old(available) + [conn]
    {
      available := available + [conn];
    }

    /** `for_each(_apply)` while nobody else uses the pool. Connections are visited in queue order,
        each once, up to the first visit that raises; a visited connection goes back to the end of
        the queue even then. So without a raise all are visited and the queue is as before. */
    method RefreshAll(visits: seq<Visit>) returns (visited: nat, ok: bool)
      requires Idle() && |visits| == size
      requires forall i :: 0 <= i < size ==> visits[i].stop <= |visits[i].rounds|
      modifies this, available
      ensures visited <= size && available == old(available)[visited..] + old(available)[..visited]
      ensures forall i :: 0 <= i < size ==>
                old(available)[i].views == if i < visited then Refreshed(old(available[i].views), visits[i].rounds[..visits[i].stop])
                                           else old(available[i].views)
      ensures forall i :: 0 <= i < visited ==> visits[i].stop == |visits[i].rounds| || (!ok && i == visited - 1)
      ensures if ok then visited == size && available == old(available)
              else visited > 0 && visits[visited - 1].stop < |visits[visited - 1].rounds|
    {
      hide Refreshed;
      ghost var start := available;
      visited, ok := 0, true;
      while visited < size
        invariant start == old(available) && |start| == size && 0 <= visited <= size && ok
        invariant available == start[visited..] + start[..visited]
        invariant forall i :: 0 <= i < visited ==> visits[i].stop == |visits[i].rounds|
        invariant forall i :: 0 <= i < visited ==> start[i].views == Refreshed(old(start[i].views), visits[i].rounds[..visits[i].stop])
        invariant forall i :: visited <= i < size ==> start[i].views == old(start[i].views)
      {
        var conn := AcquireConn();
        FrontOfQueue(start, visited, conn.value, available);
        ok := conn.value.ApplyRefresh(visits[visited].rounds, visits[visited].stop);
        ReleaseConn(conn.value);
        visited := visited + 1;
        if !ok {
          return;
        }
      }
      assert start[size..] + start[..size] == start;
    }
  }
}
