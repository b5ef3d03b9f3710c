/** The schema migration runner: one transaction per run, serialised by an advisory lock. */
module Migrations {
  import opened Model

  datatype Migration = Migration(version: int, name: string, sql: string)

  /** A recorded migration. Old databases may hold rows with empty metadata. */
  datatype Row = Row(name: string, checksum: string)

  type Table = map<int, Row>

  // ----- the migration list

  predicate WellFormed(m: Migration) { m.version > 0 && m.name != "" && m.sql != "" }

  /** Non-empty, well-formed, and strictly increasing. */
  ghost predicate ValidList(ms: seq<Migration>) {
    && ms != []
    && (forall i :: 0 <= i < |ms| ==> WellFormed(ms[i]))
    && (forall i, j :: 0 <= i < j < |ms| ==> ms[i].version < ms[j].version)
  }

  /** validateMigrations. */
  method ValidateMigrations(ms: seq<Migration>) returns (ok: bool)
    ensures ok <==> ValidList(ms)
  {
    if ms == [] { return false; }
    var versions: seq<int> := [];
    var seen: set<int> := {};
    for i := 0 to |ms|
      invariant |versions| == i && forall j :: 0 <= j < i ==> versions[j] == ms[j].version
      invariant forall v :: v in seen <==> v in versions
      invariant forall j :: 0 <= j < i ==> WellFormed(ms[j])
      invariant forall j, k :: 0 <= j < k < i ==> ms[j].version != ms[k].version
    {
      if ms[i].version <= 0 || ms[i].name == "" || ms[i].sql == "" { return false; }
      if ms[i].version in seen {
        var j :| 0 <= j < i && versions[j] == ms[i].version;
        assert ms[j].version == ms[i].version;
        return false;
      }
      seen := seen + {ms[i].version};
      versions := versions + [ms[i].version];
    }
    ok := IntsAreSorted(versions);
    if ok {
      SortedAdjacent(versions);
    }
  }

  /** sort.IntsAreSorted compares neighbours. */
  predicate IntsAreSorted(s: seq<int>) { forall i :: 0 < i < |s| ==> s[i - 1] <= s[i] }

  lemma {:induction false} SortedAdjacent(s: seq<int>)
    requires IntsAreSorted(s)
    ensures forall i, j :: 0 <= i < j < |s| ==> s[i] <= s[j]
  {
    if |s| > 1 {
      var n := |s| - 1;
      SortedAdjacent(s[..n]);
      assert forall i :: 0 <= i < n ==> s[i] == s[..n][i];
      assert s[n - 1] <= s[n];
    }
  }

  // ----- one migration inside a transaction

  /** Which SQL fails, and the checksum of a text, are up to the database and SHA-256; a
      checksum is never empty. */
  datatype Host = Host(fails: Migration -> bool, checksum: string -> string)

  ghost predicate ValidHost(h: Host) { forall s :: h.checksum(s) != "" }

  /** validateAppliedMigration. */
  predicate Compatible(m: Migration, row: Row, h: Host) {
    (row.name == "" || row.name == m.name) && (row.checksum == "" || row.checksum == h.checksum(m.sql))
  }

  function Backfill(m: Migration, row: Row, h: Host): Row {
    Row(if row.name == "" then m.name else row.name,
        if row.checksum == "" then h.checksum(m.sql) else row.checksum)
  }

  /** A transaction's private view: the table, and the versions whose SQL it executed. */
  datatype Tx = Tx(table: Table, ran: seq<int>)

  /** One pass of ensureSchema's loop, None when it fails. */
  function ApplyOne(tx: Tx, m: Migration, h: Host): Option<Tx> {
    if m.version !in tx.table then
      if h.fails(m) then None
      else Some(Tx(tx.table[m.version := Row(m.name, h.checksum(m.sql))], tx.ran + [m.version]))
    else if Compatible(m, tx.table[m.version], h) then
      Some(tx.(table := tx.table[m.version := Backfill(m, tx.table[m.version], h)]))
    else None
  }

  function ApplyAll(tx: Tx, ms: seq<Migration>, h: Host): Option<Tx> {
    if ms == [] then Some(tx)
    else match ApplyAll(tx, ms[..|ms| - 1], h)
      case None => None
      case Some(t) => ApplyOne(t, ms[|ms| - 1], h)
  }

  /** What a table may turn into: rows stay, and non-empty metadata never changes. */
  ghost predicate Extends(before: Table, after: Table) {
    forall v :: v in before ==>
      && v in after
      && (before[v].name != "" ==> after[v].name == before[v].name)
      && (before[v].checksum != "" ==> after[v].checksum == before[v].checksum)
  }

  /** Every listed migration is recorded in full. */
  ghost predicate UpToDate(table: Table, ms: seq<Migration>, h: Host) {
    forall i :: 0 <= i < |ms| ==>
      ms[i].version in table && table[ms[i].version] == Row(ms[i].name, h.checksum(ms[i].sql))
  }

  ghost predicate Distinct(s: seq<int>) { forall i, j :: 0 <= i < j < |s| ==> s[i] != s[j] }

  predicate Lists(ms: seq<Migration>, v: int) { exists i :: 0 <= i < |ms| && ms[i].version == v }

  /** From tx to t: only listed versions are added, each with its SQL run once. */
  ghost predicate Grew(tx: Tx, t: Tx, ms: seq<Migration>) {
    && Extends(tx.table, t.table)
    && Distinct(t.ran)
    && (forall v :: v in t.ran <==> v in tx.ran || (v in t.table && v !in tx.table))
    && (forall v :: v in t.table ==> v in tx.table || Lists(ms, v))
  }

  lemma ApplyOneGrows(tx: Tx, t: Tx, ms: seq<Migration>, m: Migration, h: Host)
    requires Grew(tx, t, ms) && ApplyOne(t, m, h).Some?
    requires forall v :: v in tx.ran ==> v in tx.table
    ensures Grew(tx, ApplyOne(t, m, h).value, ms + [m])
    ensures var u := ApplyOne(t, m, h).value;
            && (WellFormed(m) ==> m.version in u.table && u.table[m.version] == Row(m.name, h.checksum(m.sql)))
            && forall v :: v in t.table && v != m.version ==> v in u.table && u.table[v] == t.table[v]
  {
    var all := ms + [m];
    assert all[|ms|].version == m.version && Lists(all, m.version);
    forall v | Lists(ms, v)
      ensures Lists(all, v)
    {
      var i :| 0 <= i < |ms| && ms[i].version == v;
      assert all[i].version == v;
    }
  }

  lemma {:induction false} ApplyAllGrows(tx: Tx, ms: seq<Migration>, h: Host)
    requires Distinct(tx.ran) && forall v :: v in tx.ran ==> v in tx.table
    ensures ApplyAll(tx, ms, h).Some? ==> Grew(tx, ApplyAll(tx, ms, h).value, ms)
  {
    if ms != [] {
      var n := |ms| - 1;
      ApplyAllGrows(tx, ms[..n], h);
      if ApplyAll(tx, ms, h).Some? {
        ApplyOneGrows(tx, ApplyAll(tx, ms[..n], h).value, ms[..n], ms[n], h);
        assert ms == ms[..n] + [ms[n]];
      }
    }
  }

  lemma {:induction false} ApplyAllUpdates(tx: Tx, ms: seq<Migration>, h: Host)
    requires Distinct(tx.ran) && forall v :: v in tx.ran ==> v in tx.table
    requires forall i, j :: 0 <= i < j < |ms| ==> ms[i].version < ms[j].version
    requires forall i :: 0 <= i < |ms| ==> WellFormed(ms[i])
    ensures ApplyAll(tx, ms, h).Some? ==> UpToDate(ApplyAll(tx, ms, h).value.table, ms, h)
  {
    if ms != [] {
      var n := |ms| - 1;
      assert forall i :: 0 <= i < n ==> ms[..n][i] == ms[i];
      ApplyAllUpdates(tx, ms[..n], h);
      if ApplyAll(tx, ms, h).Some? {
        ApplyAllGrows(tx, ms[..n], h);
        ApplyOneGrows(tx, ApplyAll(tx, ms[..n], h).value, ms[..n], ms[n], h);
      }
    }
  }

  /** A run over an up-to-date table runs no SQL and changes nothing. */
  lemma {:induction false} UpToDateIsFixed(tx: Tx, ms: seq<Migration>, h: Host)
    requires UpToDate(tx.table, ms, h) && ValidHost(h)
    requires forall i :: 0 <= i < |ms| ==> WellFormed(ms[i])
    ensures ApplyAll(tx, ms, h) == Some(tx)
  {
    if ms != [] {
      var n := |ms| - 1;
      assert forall i :: 0 <= i < n ==> ms[..n][i] == ms[i];
      UpToDateIsFixed(tx, ms[..n], h);
      var row := tx.table[ms[n].version];
      assert row == Row(ms[n].name, h.checksum(ms[n].sql));
      assert tx.table[ms[n].version := row] == tx.table;
    }
  }

  lemma {:induction false} UnlistedUntouched(tx: Tx, ms: seq<Migration>, h: Host, v: int)
    requires !Lists(ms, v) && ApplyAll(tx, ms, h).Some?
    ensures var t := ApplyAll(tx, ms, h).value;
            (v in t.table <==> v in tx.table) && (v in tx.table ==> t.table[v] == tx.table[v])
  {
    if ms != [] {
      var n := |ms| - 1;
      assert forall i :: 0 <= i < n ==> ms[..n][i] == ms[i];
      assert ms[n].version != v;
      UnlistedUntouched(tx, ms[..n], h, v);
    }
  }

  /** The database can take this migration: it is recorded compatibly, or its SQL succeeds. */
  predicate Accepts(table: Table, m: Migration, h: Host) {
    if m.version in table then Compatible(m, table[m.version], h) else !h.fails(m)
  }

  /** A run succeeds exactly when the table it starts from accepts every listed migration. */
  lemma {:induction false} SucceedsIff(tx: Tx, ms: seq<Migration>, h: Host)
    requires forall i, j :: 0 <= i < j < |ms| ==> ms[i].version < ms[j].version
    ensures ApplyAll(tx, ms, h).Some? <==> forall i :: 0 <= i < |ms| ==> Accepts(tx.table, ms[i], h)
  {
    if ms != [] {
      var n := |ms| - 1;
      assert forall i :: 0 <= i < n ==> ms[..n][i] == ms[i];
      SucceedsIff(tx, ms[..n], h);
      if ApplyAll(tx, ms[..n], h).Some? {
        UnlistedUntouched(tx, ms[..n], h, ms[n].version);
      }
    }
  }

  // ----- one run, as the code does it

  /** The schema table and the SQL executed so far, as committed. */
  class Database {
    var table: Table
    var ran: seq<int>

    constructor (table: Table)
      ensures this.table == table && ran == []
    {
      this.table, ran := table, [];
    }

    /** ensureSchema while holding the lock: works on the transaction, and commits at the end
        or rolls back. outage says how many database statements work before the connection
        fails, None when it holds. */
    method EnsureSchema(ms: seq<Migration>, h: Host, outage: Option<nat>) returns (ok: bool)
      modifies this
      ensures ok <==> && ValidList(ms) && ApplyAll(Tx(old(table), old(ran)), ms, h).Some?
                      && (outage.Some? ==> Statements(ms) <= outage.value)
      ensures ok ==> Some(Tx(table, ran)) == ApplyAll(Tx(old(table), old(ran)), ms, h)
      ensures !ok ==> table == old(table) && ran == old(ran)
    {
      ok := ValidateMigrations(ms);
      if !ok { return; }
      // begin, lock and bootstrap
      var left := outage;
      for opening := 0 to 3
        invariant table == old(table) && ran == old(ran)
        invariant outage.Some? ==> opening <= outage.value
        invariant left == Minus(outage, opening)
      {
        if left == Some(0) { return false; }
        left := Minus(left, 1);
      }
      var tx := Tx(table, ran);
      for i := 0 to |ms|
        invariant table == old(table) && ran == old(ran)
        invariant ApplyAll(Tx(old(table), old(ran)), ms[..i], h) == Some(tx)
        invariant outage.Some? ==> 3 + 3 * i <= outage.value
        invariant left == Minus(outage, 3 + 3 * i)
      {
        assert ms[..i + 1][..i] == ms[..i];
        // the version is looked up, then recorded or compared, then written
        if left.Some? && left.value < 3 { return false; }
        var next := MigrateOne(tx, ms[i], h);
        if next.None? {
          FailureStays(Tx(table, ran), ms, i + 1, h);
          return false;
        }
        tx, left := next.value, Minus(left, 3);
      }
      assert ms[..|ms|] == ms;
      if left == Some(0) { return false; }
      table, ran := tx.table, tx.ran;
    }
  }

  /** What is left of a number of statements. */
  function Minus(left: Option<nat>, used: nat): Option<nat>
    requires left.Some? ==> used <= left.value
  {
    if left.None? then None else Some(left.value - used)
  }

  /** Begin, lock, bootstrap and commit, and three for each migration, applied before or not. */
  function Statements(ms: seq<Migration>): nat { 4 + 3 * |ms| }

  /** The body of ensureSchema's loop. */
  method MigrateOne(tx: Tx, m: Migration, h: Host) returns (next: Option<Tx>)
    ensures next == ApplyOne(tx, m, h)
  {
    if m.version !in tx.table {
      if h.fails(m) { return None; }
      return Some(Tx(tx.table[m.version := Row(m.name, h.checksum(m.sql))], tx.ran + [m.version]));
    }
    var row := tx.table[m.version];
    if row.name != "" && row.name != m.name { return None; }
    if row.checksum != "" && row.checksum != h.checksum(m.sql) { return None; }
    next := Some(tx.(table := tx.table[m.version := Backfill(m, row, h)]));
  }

  lemma {:induction false} FailureStays(tx: Tx, ms: seq<Migration>, k: nat, h: Host)
    requires k <= |ms| && ApplyAll(tx, ms[..k], h) == None
    ensures ApplyAll(tx, ms, h) == None
    decreases |ms|
  {
    if k == |ms| {
      assert ms[..k] == ms;
    } else {
      assert ms[..|ms| - 1][..k] == ms[..k];
      FailureStays(tx, ms[..|ms| - 1], k, h);
    }
  }

  // ----- many instances

  /** Instances share the database, each with its own list: a rolling upgrade runs an old list
      and a new one. The holder of the advisory lock works on its own transaction, done counts
      the migrations it has been through; succeeded records the lists that were committed. */
  datatype Shared = Shared(table: Table, ran: seq<int>, holder: Option<Holder>, succeeded: set<seq<Migration>>)

  datatype Holder = Holder(instance: nat, ms: seq<Migration>, tx: Tx, done: nat)

  datatype Action =
    | Acquire(instance: nat, ms: seq<Migration>) // granted to a valid list when the lock is free
    | Advance(instance: nat)                     // the next migration, rolling back when it fails
    | Commit(instance: nat)
    | Abort(instance: nat)                       // crash, cancellation or lost connection

  function Start(table: Table): Shared { Shared(table, [], None, {}) }

  ghost function Step(s: Shared, a: Action, h: Host): Shared {
    match a
    case Acquire(id, ms) =>
      if s.holder.None? && ValidList(ms) then s.(holder := Some(Holder(id, ms, Tx(s.table, s.ran), 0))) else s
    case Advance(id) =>
      if s.holder.Some? && s.holder.value.instance == id && s.holder.value.done < |s.holder.value.ms| then
        match ApplyOne(s.holder.value.tx, s.holder.value.ms[s.holder.value.done], h)
        case None => s.(holder := None)
        case Some(tx) => s.(holder := Some(s.holder.value.(tx := tx, done := s.holder.value.done + 1)))
      else s
    case Commit(id) =>
      if s.holder.Some? && s.holder.value.instance == id && s.holder.value.done == |s.holder.value.ms| then
        Shared(s.holder.value.tx.table, s.holder.value.tx.ran, None, s.succeeded + {s.holder.value.ms})
      else s
    case Abort(id) =>
      if s.holder.Some? && s.holder.value.instance == id then s.(holder := None) else s
  }

  ghost function RunFrom(s: Shared, actions: seq<Action>, h: Host): Shared {
    if actions == [] then s
    else Step(RunFrom(s, actions[..|actions| - 1], h), actions[|actions| - 1], h)
  }

  ghost function Run(table: Table, actions: seq<Action>, h: Host): Shared { RunFrom(Start(table), actions, h) }

  /** Some instance was started with a list that has this version. */
  ghost predicate Started(actions: seq<Action>, v: int) {
    exists i :: 0 <= i < |actions| && actions[i].Acquire? && Lists(actions[i].ms, v)
  }

  /** What the transaction of the holder is, relative to the committed state. */
  ghost predicate HolderOK(s: Shared, h: Host) {
    s.holder.Some? ==>
      var t := s.holder.value;
      && ValidList(t.ms) && t.done <= |t.ms|
      && ApplyAll(Tx(s.table, s.ran), t.ms[..t.done], h) == Some(t.tx)
  }

  /** What every interleaving keeps, relative to the table before any instance ran. */
  ghost predicate CommittedOK(s: Shared, first: Table, h: Host) {
    && Extends(first, s.table)
    && Distinct(s.ran)
    && (forall v :: v in s.ran <==> v in s.table && v !in first)
    && (ValidHost(h) ==> forall ms :: ms in s.succeeded ==> ValidList(ms) && UpToDate(s.table, ms, h))
  }

  lemma AdvanceKeepsHolder(s: Shared, id: nat, h: Host)
    requires HolderOK(s, h)
    ensures HolderOK(Step(s, Advance(id), h), h)
  {
    if s.holder.Some? && s.holder.value.done < |s.holder.value.ms| {
      var k := s.holder.value.done;
      assert s.holder.value.ms[..k + 1][..k] == s.holder.value.ms[..k];
    }
  }

  /** A full record never changes, whatever lists are applied later. */
  lemma FullRecordsStay(before: Table, after: Table, ms: seq<Migration>, h: Host)
    requires Extends(before, after) && UpToDate(before, ms, h) && ValidList(ms) && ValidHost(h)
    ensures UpToDate(after, ms, h)
  {
    forall i | 0 <= i < |ms|
      ensures ms[i].version in after && after[ms[i].version] == Row(ms[i].name, h.checksum(ms[i].sql))
    {
      assert WellFormed(ms[i]);
    }
  }

  lemma CommitKeepsCommitted(s: Shared, id: nat, first: Table, h: Host)
    requires HolderOK(s, h) && CommittedOK(s, first, h)
    ensures CommittedOK(Step(s, Commit(id), h), first, h)
  {
    if s.holder.Some? && s.holder.value.done == |s.holder.value.ms| {
      var mine := s.holder.value.ms;
      assert mine[..|mine|] == mine;
      ApplyAllGrows(Tx(s.table, s.ran), mine, h);
      ApplyAllUpdates(Tx(s.table, s.ran), mine, h);
      forall ms | ValidHost(h) && ms in s.succeeded
        ensures UpToDate(s.holder.value.tx.table, ms, h)
      {
        FullRecordsStay(s.table, s.holder.value.tx.table, ms, h);
      }
    }
  }

  lemma StepKeepsInv(s: Shared, a: Action, first: Table, h: Host)
    requires HolderOK(s, h) && CommittedOK(s, first, h)
    ensures HolderOK(Step(s, a, h), h) && CommittedOK(Step(s, a, h), first, h)
  {
    match a
    case Acquire(_, ms) => assert ms[..0] == [];
    case Advance(id) => AdvanceKeepsHolder(s, id, h);
    case Commit(id) => CommitKeepsCommitted(s, id, first, h);
    case Abort(_) =>
  }

  lemma {:induction false} RunFromKeepsInv(s: Shared, actions: seq<Action>, first: Table, h: Host)
    requires HolderOK(s, h) && CommittedOK(s, first, h)
    ensures HolderOK(RunFrom(s, actions, h), h) && CommittedOK(RunFrom(s, actions, h), first, h)
  {
    if actions != [] {
      var n := |actions| - 1;
      RunFromKeepsInv(s, actions[..n], first, h);
      StepKeepsInv(RunFrom(s, actions[..n], h), actions[n], first, h);
    }
  }

  /** What was committed or is under way comes from the lists that were started. */
  ghost predicate Sourced(s: Shared, actions: seq<Action>, first: Table) {
    && (forall v :: v in s.table && v !in first ==> Started(actions, v))
    && (s.holder.Some? ==> forall v :: Lists(s.holder.value.ms, v) ==> Started(actions, v))
  }

  lemma StepKeepsSourced(s: Shared, actions: seq<Action>, a: Action, first: Table, h: Host)
    requires HolderOK(s, h) && Distinct(s.ran) && (forall v :: v in s.ran ==> v in s.table)
    requires Sourced(s, actions, first)
    ensures Sourced(Step(s, a, h), actions + [a], first)
  {
    var more := actions + [a];
    forall v | Started(actions, v)
      ensures Started(more, v)
    {
      var i :| 0 <= i < |actions| && actions[i].Acquire? && Lists(actions[i].ms, v);
      assert more[i] == actions[i];
    }
    if a.Acquire? {
      assert more[|actions|] == a;
    } else if a.Commit? && s.holder.Some? && s.holder.value.done == |s.holder.value.ms| {
      assert s.holder.value.ms[..|s.holder.value.ms|] == s.holder.value.ms;
      ApplyAllGrows(Tx(s.table, s.ran), s.holder.value.ms, h);
    }
  }

  lemma {:induction false} RunIsSourced(table: Table, actions: seq<Action>, h: Host)
    ensures Sourced(Run(table, actions, h), actions, table)
  {
    if actions != [] {
      var n := |actions| - 1;
      RunIsSourced(table, actions[..n], h);
      RunFromKeepsInv(Start(table), actions[..n], table, h);
      StepKeepsSourced(Run(table, actions[..n], h), actions[..n], actions[n], table, h);
      assert actions == actions[..n] + [actions[n]];
    }
  }

  /** Over every interleaving of instances, each with its own list, crashes included: each
      version's SQL is committed at most once, and only for versions that were not recorded and
      that some started list has; recorded rows stay and their non-empty metadata never
      changes. */
  lemma MigrationsAreSafe(table: Table, actions: seq<Action>, h: Host)
    ensures var s := Run(table, actions, h);
            && Distinct(s.ran)
            && (forall v :: v in s.ran <==> v in s.table && v !in table)
            && (forall v :: v in s.ran ==> Started(actions, v))
            && Extends(table, s.table)
  {
    RunFromKeepsInv(Start(table), actions, table, h);
    RunIsSourced(table, actions, h);
  }

  /** Until a commit nothing shows: a run that fails, crashes or is still under way leaves no
      trace, whatever other instances do in between. */
  lemma {:induction false} OnlyCommitShows(s: Shared, actions: seq<Action>, h: Host)
    requires forall a :: a in actions ==> !a.Commit?
    ensures RunFrom(s, actions, h).table == s.table && RunFrom(s, actions, h).ran == s.ran
  {
    if actions != [] {
      var n := |actions| - 1;
      assert actions[n] in actions && forall a :: a in actions[..n] ==> a in actions;
      OnlyCommitShows(s, actions[..n], h);
    }
  }

  lemma {:induction false} SucceededStays(s: Shared, actions: seq<Action>, h: Host)
    ensures s.succeeded <= RunFrom(s, actions, h).succeeded
  {
    if actions != [] {
      SucceededStays(s, actions[..|actions| - 1], h);
    }
  }

  /** A successful list stays applied for good, whatever lists other instances run later: any
      later run of it, or of any list all of whose migrations it has, executes no SQL and
      changes nothing. */
  lemma SuccessIsFinal(table: Table, actions: seq<Action>, later: seq<Action>, ms: seq<Migration>,
                       again: seq<Migration>, h: Host)
    requires ValidHost(h) && ms in Run(table, actions, h).succeeded
    requires forall x :: x in again ==> x in ms
    ensures var t := RunFrom(Run(table, actions, h), later, h);
            UpToDate(t.table, ms, h) && ApplyAll(Tx(t.table, t.ran), again, h) == Some(Tx(t.table, t.ran))
  {
    var s := Run(table, actions, h);
    var t := RunFrom(s, later, h);
    RunFromKeepsInv(Start(table), actions, table, h);
    RunFromKeepsInv(s, later, table, h);
    SucceededStays(s, later, h);
    forall i | 0 <= i < |again|
      ensures WellFormed(again[i]) && again[i].version in t.table
      ensures t.table[again[i].version] == Row(again[i].name, h.checksum(again[i].sql))
    {
      assert again[i] in ms;
      var k :| 0 <= k < |ms| && ms[k] == again[i];
      assert WellFormed(ms[k]);
    }
    UpToDateIsFixed(Tx(t.table, t.ran), again, h);
  }

  // ----- one instance inside a run

  /** Only the holder of the lock can do anything. */
  lemma OthersWait(s: Shared, a: Action, h: Host)
    requires s.holder.Some? && a.instance != s.holder.value.instance
    ensures Step(s, a, h) == s
  {
  }

  /** An uninterrupted instance, up to k migrations. */
  function Uninterrupted(id: nat, ms: seq<Migration>, k: nat): seq<Action> {
    if k == 0 then [Acquire(id, ms)] else Uninterrupted(id, ms, k - 1) + [Advance(id)]
  }

  lemma Snoc(s: Shared, actions: seq<Action>, a: Action, h: Host)
    ensures RunFrom(s, actions + [a], h) == Step(RunFrom(s, actions, h), a, h)
  {
    assert (actions + [a])[..|actions|] == actions;
  }

  lemma {:induction false} UninterruptedReaches(s: Shared, id: nat, ms: seq<Migration>, k: nat, h: Host)
    requires s.holder.None? && ValidList(ms) && k <= |ms|
    ensures RunFrom(s, Uninterrupted(id, ms, k), h)
            == match ApplyAll(Tx(s.table, s.ran), ms[..k], h)
               case None => s
               case Some(tx) => s.(holder := Some(Holder(id, ms, tx, k)))
  {
    if k == 0 {
      assert ms[..0] == [] && [] + [Acquire(id, ms)] == [Acquire(id, ms)];
      Snoc(s, [], Acquire(id, ms), h);
    } else {
      assert ms[..k][..k - 1] == ms[..k - 1];
      UninterruptedReaches(s, id, ms, k - 1, h);
      Snoc(s, Uninterrupted(id, ms, k - 1), Advance(id), h);
    }
  }

  /** EnsureSchema without interruption, on a free lock, is a run of the machine: it commits what
      ApplyAll makes of the database, or leaves everything as it was. */
  lemma EnsureSchemaIsARun(s: Shared, id: nat, ms: seq<Migration>, h: Host)
    requires s.holder.None? && ValidList(ms)
    ensures RunFrom(s, Uninterrupted(id, ms, |ms|) + [Commit(id)], h)
            == match ApplyAll(Tx(s.table, s.ran), ms, h)
               case None => s
               case Some(tx) => Shared(tx.table, tx.ran, None, s.succeeded + {ms})
  {
    assert ms[..|ms|] == ms;
    UninterruptedReaches(s, id, ms, |ms|, h);
    Snoc(s, Uninterrupted(id, ms, |ms|), Commit(id), h);
  }

  /** A crash gives the lock back and leaves the rest. */
  lemma AbortReleases(s: Shared, h: Host)
    requires s.holder.Some?
    ensures Step(s, Abort(s.holder.value.instance), h) == s.(holder := None)
  {
  }
}
