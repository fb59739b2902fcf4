/** Migration 0004: delete duplicate incidents and their children, then make the key unique. */
module Migration {
  import opened Common
  import opened Evidence
  import opened Analysis
  import opened LeaseQueue
  import opened Store

  // ---------------------------------------------------------------- duplicates and keepers

  /** The join with a keeper: another incident of the same episode has a smaller id. */
  predicate IsDuplicate(all: seq<Incident>, d: Incident) {
    exists k :: 0 <= k < |all| && EpisodeOf(all[k]) == EpisodeOf(d) && Less(all[k].id, d.id)
  }

  /** The rows of `some` that are the least of their episode in `all`. */
  function LeastOf(some: seq<Incident>, all: seq<Incident>): seq<Incident> {
    if some == [] then []
    else LeastOf(some[..|some| - 1], all) + if IsDuplicate(all, Last(some)) then [] else [Last(some)]
  }

  function Keepers(all: seq<Incident>): seq<Incident> {
    LeastOf(all, all)
  }

  function Without<T>(s: seq<T>, i: nat): seq<T>
    requires i < |s|
  {
    s[..i] + s[i + 1..]
  }

  lemma {:induction false} LeastOfMembers(some: seq<Incident>, all: seq<Incident>, d: Incident)
    ensures d in LeastOf(some, all) <==> d in some && !IsDuplicate(all, d)
  {
    if some != [] {
      LeastOfMembers(some[..|some| - 1], all, d);
      assert some == some[..|some| - 1] + [Last(some)];
    }
  }

  lemma {:induction false} LeastOfAgrees(some: seq<Incident>, all: seq<Incident>, all': seq<Incident>)
    requires forall d | d in some :: IsDuplicate(all, d) <==> IsDuplicate(all', d)
    ensures LeastOf(some, all) == LeastOf(some, all')
  {
    if some != [] {
      LeastOfAgrees(some[..|some| - 1], all, all');
    }
  }

  lemma {:induction false} LeastOfWithout(some: seq<Incident>, i: nat, all: seq<Incident>)
    requires i < |some| && IsDuplicate(all, some[i])
    ensures LeastOf(Without(some, i), all) == LeastOf(some, all)
  {
    hide IsDuplicate;
    var front := some[..|some| - 1];
    if i < |some| - 1 {
      LeastOfWithout(front, i, all);
      assert Without(some, i)[..|some| - 2] == Without(front, i);
    } else {
      assert Without(some, i) == front;
    }
  }

  /** Deleting a duplicate makes no other duplicate into a keeper: its own keeper stands in. */
  lemma DuplicatesAfterDelete(all: seq<Incident>, i: nat, d: Incident)
    requires i < |all| && IsDuplicate(all, all[i])
    ensures IsDuplicate(Without(all, i), d) <==> IsDuplicate(all, d)
  {
    var rest := Without(all, i);
    if IsDuplicate(rest, d) {
      var k :| 0 <= k < |rest| && EpisodeOf(rest[k]) == EpisodeOf(d) && Less(rest[k].id, d.id);
      assert rest[k] == all[if k < i then k else k + 1];
    }
    if IsDuplicate(all, d) {
      var k :| 0 <= k < |all| && EpisodeOf(all[k]) == EpisodeOf(d) && Less(all[k].id, d.id);
      var m := k;
      if k == i {
        m :| 0 <= m < |all| && EpisodeOf(all[m]) == EpisodeOf(all[i]) && Less(all[m].id, all[i].id);
        LessTransitive(all[m].id, all[i].id, d.id);
        LessTrichotomy(all[i].id, all[i].id);
      }
      assert all[m] == rest[if m < i then m else m - 1];
    }
  }

  /** One row of the delete, whichever it is, leaves the same keepers to be found. */
  lemma KeepersAfterDelete(all: seq<Incident>, i: nat)
    requires i < |all| && IsDuplicate(all, all[i])
    ensures Keepers(Without(all, i)) == Keepers(all)
  {
    var rest := Without(all, i);
    forall d | d in rest ensures IsDuplicate(rest, d) <==> IsDuplicate(all, d) {
      DuplicatesAfterDelete(all, i, d);
    }
    LeastOfAgrees(rest, rest, all);
    LeastOfWithout(all, i, all);
  }

  lemma {:induction false} NoDuplicatesNothingToDo(some: seq<Incident>, all: seq<Incident>)
    requires forall d | d in some :: !IsDuplicate(all, d)
    ensures LeastOf(some, all) == some
  {
    if some != [] {
      NoDuplicatesNothingToDo(some[..|some| - 1], all);
      assert Last(some) in some;
    }
  }

  /** Rows deleted one at a time: each index names a row that is a duplicate at that moment. */
  predicate DeletesDuplicates(all: seq<Incident>, order: seq<nat>)
    decreases |order|
  {
    order == [] ||
    (order[0] < |all| && IsDuplicate(all, all[order[0]]) && DeletesDuplicates(Without(all, order[0]), order[1..]))
  }

  function AfterDeletes(all: seq<Incident>, order: seq<nat>): seq<Incident>
    requires DeletesDuplicates(all, order)
    decreases |order|
  {
    if order == [] then all else AfterDeletes(Without(all, order[0]), order[1..])
  }

  /** Whatever the order, once no duplicate is left the table is that of the least ids. */
  lemma {:induction false} AnyOrderKeepsLeast(all: seq<Incident>, order: seq<nat>)
    requires DeletesDuplicates(all, order)
    ensures Keepers(AfterDeletes(all, order)) == Keepers(all)
    ensures (forall d | d in AfterDeletes(all, order) :: !IsDuplicate(AfterDeletes(all, order), d)) ==>
              AfterDeletes(all, order) == Keepers(all)
    decreases |order|
  {
    if order == [] {
      if forall d | d in all :: !IsDuplicate(all, d) {
        NoDuplicatesNothingToDo(all, all);
      }
    } else {
      KeepersAfterDelete(all, order[0]);
      AnyOrderKeepsLeast(Without(all, order[0]), order[1..]);
    }
  }

  ghost function Smaller(all: seq<Incident>, d: Incident): set<Incident> {
    set x | x in all && Less(x.id, d.id)
  }

  /** Every episode keeps an incident, and it has the least id of its episode. */
  lemma {:induction false} EveryEpisodeKept(all: seq<Incident>, d: Incident) returns (k: Incident)
    requires d in all
    ensures k in Keepers(all) && EpisodeOf(k) == EpisodeOf(d) && (k == d || Less(k.id, d.id))
    ensures forall x | x in all && EpisodeOf(x) == EpisodeOf(d) :: !Less(x.id, k.id)
    decreases |Smaller(all, d)|
  {
    if IsDuplicate(all, d) {
      var i :| 0 <= i < |all| && EpisodeOf(all[i]) == EpisodeOf(d) && Less(all[i].id, d.id);
      forall x | x in Smaller(all, all[i]) ensures x in Smaller(all, d) {
        LessTransitive(x.id, all[i].id, d.id);
      }
      LessTrichotomy(all[i].id, all[i].id);
      assert all[i] in Smaller(all, d) && all[i] !in Smaller(all, all[i]);
      ProperSubsetSize(Smaller(all, all[i]), Smaller(all, d));
      k := EveryEpisodeKept(all, all[i]);
      if k != all[i] {
        LessTransitive(k.id, all[i].id, d.id);
      }
    } else {
      k := d;
      LeastOfMembers(all, all, d);
    }
  }

  lemma ProperSubsetSize<T>(a: set<T>, b: set<T>)
    requires a < b
    ensures |a| < |b|
  {
    var x :| x in b && x !in a;
    assert a <= b - {x};
    assert |b - {x} - a| + |a| == |b - {x}| by { assert (b - {x} - a) + a == b - {x}; }
  }

  lemma {:induction false} LeastOfIds(some: seq<Incident>, all: seq<Incident>)
    requires Distinct(Ids(some))
    ensures Distinct(Ids(LeastOf(some, all)))
    ensures forall id | id in Ids(LeastOf(some, all)) :: id in Ids(some)
  {
    if some != [] {
      var front := some[..|some| - 1];
      var last := Last(some).id;
      assert Ids(some) == Ids(front) + [last] && Ids(some)[..|front|] == Ids(front);
      assert forall i, j | 0 <= i < j < |front| :: Ids(some)[i] != Ids(some)[j];
      LeastOfIds(front, all);
      var kept := LeastOf(front, all);
      assert forall i | 0 <= i < |front| :: Ids(some)[i] != Ids(some)[|front|];
      assert last !in Ids(front) && last !in Ids(kept);
      assert Ids(kept + [Last(some)]) == Ids(kept) + [last];
      assert Ids(LeastOf(some, all)) == if IsDuplicate(all, Last(some)) then Ids(kept) else Ids(kept) + [last];
    }
  }

  /** After the delete the unique constraint on (dedup_key, started_at) can be created. */
  lemma KeepersUnique(all: seq<Incident>)
    requires Distinct(Ids(all))
    ensures Distinct(Episodes(Keepers(all))) && Distinct(Ids(Keepers(all)))
  {
    var kept := Keepers(all);
    LeastOfIds(all, all);
    forall i, j | 0 <= i < j < |kept| ensures Episodes(kept)[i] != Episodes(kept)[j] {
      assert Ids(kept)[i] != Ids(kept)[j];
      LeastOfMembers(all, all, kept[i]);
      LeastOfMembers(all, all, kept[j]);
      LessTrichotomy(kept[i].id, kept[j].id);
    }
  }

  // ---------------------------------------------------------------- children

  predicate IsDuplicateId(all: seq<Incident>, id: string) {
    exists d :: 0 <= d < |all| && all[d].id == id && IsDuplicate(all, all[d])
  }

  /** What the delete leaves of a child table, given how a row names its incident and revision. */
  function Kept<T>(rows: seq<T>, key: T -> Key, all: seq<Incident>): seq<T> {
    if rows == [] then []
    else Kept(rows[..|rows| - 1], key, all) + if IsDuplicateId(all, key(Last(rows)).incident) then [] else [Last(rows)]
  }

  function BundleKey(b: EvidenceRow): Key { b.key }
  function ResultKey(r: ResultRow): Key { r.key }
  function SameKey(k: Key): Key { k }

  function Migrated(s: Tables): Tables {
    Tables(Keepers(s.incidents),
           Kept(s.jobs, RowKey, s.incidents),
           Kept(s.bundles, BundleKey, s.incidents),
           Kept(s.results, ResultKey, s.incidents),
           Kept(s.deliveries, RowKey, s.incidents))
  }

  /** Exactly the rows of keepers survive, unchanged and as often as before. */
  lemma {:induction false} KeptMembers<T>(rows: seq<T>, key: T -> Key, all: seq<Incident>, r: T)
    ensures multiset(Kept(rows, key, all))[r] == if IsDuplicateId(all, key(r).incident) then 0 else multiset(rows)[r]
    ensures r in Kept(rows, key, all) <==> r in rows && !IsDuplicateId(all, key(r).incident)
    ensures Distinct(rows) ==> Distinct(Kept(rows, key, all))
  {
    if rows != [] {
      var front := rows[..|rows| - 1];
      assert rows == front + [Last(rows)];
      KeptMembers(front, key, all, r);
      KeptMembers(front, key, all, Last(rows));
    }
  }

  /** Rows stay in their order. */
  lemma {:induction false} KeptInOrder<T>(a: seq<T>, b: seq<T>, key: T -> Key, all: seq<Incident>)
    ensures Kept(a + b, key, all) == Kept(a, key, all) + Kept(b, key, all)
    ensures |a| == 1 ==> Kept(a, key, all) == if IsDuplicateId(all, key(a[0]).incident) then [] else a
  {
    if b == [] {
      assert a + b == a;
    } else {
      assert (a + b)[..|a + b| - 1] == a + b[..|b| - 1];
      KeptInOrder(a, b[..|b| - 1], key, all);
    }
  }

  function KeysOf<T>(rows: seq<T>, key: T -> Key): seq<Key> {
    seq(|rows|, i requires 0 <= i < |rows| => key(rows[i]))
  }

  /** The keys that survive are those of the rows that survive, in the same order. */
  lemma {:induction false} KeptKeys<T>(rows: seq<T>, key: T -> Key, all: seq<Incident>)
    ensures KeysOf(Kept(rows, key, all), key) == Kept(KeysOf(rows, key), SameKey, all)
  {
    if rows != [] {
      KeptKeys(rows[..|rows| - 1], key, all);
      assert KeysOf(rows, key)[..|rows| - 1] == KeysOf(rows[..|rows| - 1], key);
    }
  }

  /** With a primary key, an id is a duplicate's iff its one incident is a duplicate. */
  lemma DuplicateIdIsIncident(all: seq<Incident>, d: nat)
    requires Distinct(Ids(all)) && d < |all|
    ensures IsDuplicateId(all, all[d].id) <==> IsDuplicate(all, all[d])
  {
    forall e | 0 <= e < |all| && all[e].id == all[d].id ensures e == d {
      assert Ids(all)[e] == Ids(all)[d];
    }
  }

  lemma DuplicateIdIffNotKept(all: seq<Incident>, id: string)
    requires Distinct(Ids(all)) && id in Ids(all)
    ensures !IsDuplicateId(all, id) <==> id in Ids(Keepers(all))
  {
    var kept := Keepers(all);
    var d :| 0 <= d < |all| && Ids(all)[d] == id;
    DuplicateIdIsIncident(all, d);
    LeastOfMembers(all, all, all[d]);
    if id in Ids(kept) {
      var k :| 0 <= k < |kept| && Ids(kept)[k] == id;
      LeastOfMembers(all, all, kept[k]);
      var e :| 0 <= e < |all| && all[e] == kept[k];
      DuplicateIdIsIncident(all, e);
    }
    if !IsDuplicateId(all, id) {
      var k :| 0 <= k < |kept| && kept[k] == all[d];
      assert Ids(kept)[k] == id;
    }
  }

  /** No orphans: a child row survives, unchanged, exactly when its incident does. */
  lemma NoOrphanRows<T>(all: seq<Incident>, rows: seq<T>, key: T -> Key, r: T)
    requires Distinct(Ids(all)) && forall x | x in rows :: key(x).incident in Ids(all)
    ensures multiset(Kept(rows, key, all))[r] == if key(r).incident in Ids(Keepers(all)) then multiset(rows)[r] else 0
  {
    KeptMembers(rows, key, all, r);
    if r in rows {
      DuplicateIdIffNotKept(all, key(r).incident);
    }
  }

  lemma {:induction false} DuplicatesThroughDeletes(all: seq<Incident>, order: seq<nat>, d: Incident)
    requires DeletesDuplicates(all, order)
    ensures IsDuplicate(AfterDeletes(all, order), d) <==> IsDuplicate(all, d)
    ensures d in AfterDeletes(all, order) ==> d in all
    decreases |order|
  {
    if order != [] {
      DuplicatesAfterDelete(all, order[0], d);
      DuplicatesThroughDeletes(Without(all, order[0]), order[1..], d);
    }
  }

  /** Children first: no incident delete, at any point of any order, meets a row that refers to it. */
  lemma DeletesMeetNoChild<T>(all: seq<Incident>, order: seq<nat>, i: nat, rows: seq<T>, key: T -> Key, r: T)
    requires DeletesDuplicates(all, order) && i < |AfterDeletes(all, order)|
    requires IsDuplicate(AfterDeletes(all, order), AfterDeletes(all, order)[i]) && r in Kept(rows, key, all)
    ensures key(r).incident != AfterDeletes(all, order)[i].id
  {
    var d := AfterDeletes(all, order)[i];
    DuplicatesThroughDeletes(all, order, d);
    KeptMembers(rows, key, all, r);
    var k :| 0 <= k < |all| && all[k] == d;
    assert IsDuplicateId(all, d.id);
  }

  lemma TableKeys(s: Tables)
    ensures KeysOf(s.jobs, RowKey) == RowKeys(s.jobs) && KeysOf(s.deliveries, RowKey) == RowKeys(s.deliveries)
    ensures KeysOf(s.bundles, BundleKey) == BundleKeys(s) && KeysOf(s.results, ResultKey) == ResultKeys(s)
  {
    assert forall i | 0 <= i < |s.bundles| :: BundleKeys(s)[i] == BundleKey(s.bundles[i]);
    assert forall i | 0 <= i < |s.results| :: ResultKeys(s)[i] == ResultKey(s.results[i]);
  }

  lemma MigratedKeys(s: Tables)
    ensures var t, all := Migrated(s), s.incidents;
            && RowKeys(t.jobs) == Kept(RowKeys(s.jobs), SameKey, all)
            && BundleKeys(t) == Kept(BundleKeys(s), SameKey, all)
            && ResultKeys(t) == Kept(ResultKeys(s), SameKey, all)
            && RowKeys(t.deliveries) == Kept(RowKeys(s.deliveries), SameKey, all)
  {
    var t, all := Migrated(s), s.incidents;
    KeptKeys(s.jobs, RowKey, all);
    KeptKeys(s.deliveries, RowKey, all);
    KeptKeys(s.bundles, BundleKey, all);
    KeptKeys(s.results, ResultKey, all);
    TableKeys(s);
    TableKeys(t);
  }

  /** In each child table exactly the keys of kept incidents are left, each as often as before. */
  lemma KeysAfterMigration(s: Tables, k: Key)
    ensures var t, gone := Migrated(s), IsDuplicateId(s.incidents, k.incident);
            && (k in RowKeys(t.jobs) <==> k in RowKeys(s.jobs) && !gone)
            && (k in BundleKeys(t) <==> k in BundleKeys(s) && !gone)
            && (k in ResultKeys(t) <==> k in ResultKeys(s) && !gone)
            && (k in RowKeys(t.deliveries) <==> k in RowKeys(s.deliveries) && !gone)
    ensures var t := Migrated(s);
            && (Distinct(RowKeys(s.jobs)) ==> Distinct(RowKeys(t.jobs)))
            && (Distinct(BundleKeys(s)) ==> Distinct(BundleKeys(t)))
            && (Distinct(ResultKeys(s)) ==> Distinct(ResultKeys(t)))
            && (Distinct(RowKeys(s.deliveries)) ==> Distinct(RowKeys(t.deliveries)))
  {
    hide Migrated, Distinct, Kept;
    MigratedKeys(s);
    KeptMembers(RowKeys(s.jobs), SameKey, s.incidents, k);
    KeptMembers(BundleKeys(s), SameKey, s.incidents, k);
    KeptMembers(ResultKeys(s), SameKey, s.incidents, k);
    KeptMembers(RowKeys(s.deliveries), SameKey, s.incidents, k);
  }

  // ---------------------------------------------------------------- what the migration keeps

  /** The unique and foreign keys of the five tables before revision 0004. */
  ghost predicate SchemaSound(s: Tables) {
    && Distinct(Ids(s.incidents))
    && Distinct(RowKeys(s.jobs)) && Distinct(RowKeys(s.deliveries))
    && Distinct(BundleKeys(s)) && Distinct(ResultKeys(s))
    && Refer(RowKeys(s.jobs), s.incidents) && Refer(BundleKeys(s), s.incidents)
    && Refer(ResultKeys(s), s.incidents) && Refer(RowKeys(s.deliveries), s.incidents)
  }

  ghost predicate Refer(keys: seq<Key>, incidents: seq<Incident>) {
    forall k | k in keys :: k.incident in Ids(incidents)
  }

  lemma ReferenceKept(s: Tables, k: Key)
    requires Distinct(Ids(s.incidents)) && k.incident in Ids(s.incidents) && !IsDuplicateId(s.incidents, k.incident)
    ensures k.incident in Ids(Migrated(s).incidents)
  {
    DuplicateIdIffNotKept(s.incidents, k.incident);
  }

  /**
   From any tables the database can hold, whatever the rows say, the migration makes tables whose
   episodes are unique and whose foreign keys hold.
   */
  lemma MigrationKeepsSchema(s: Tables)
    requires SchemaSound(s)
    ensures SchemaSound(Migrated(s)) && Distinct(Episodes(Migrated(s).incidents))
  {
    hide Migrated, Distinct, IsDuplicateId;
    var t := Migrated(s);
    IncidentsAfterMigration(s);
    forall k: Key
      ensures k in RowKeys(t.jobs) || k in BundleKeys(t) || k in ResultKeys(t) || k in RowKeys(t.deliveries) ==>
                k.incident in Ids(t.incidents)
    {
      KeysAfterMigration(s, k);
      if k.incident in Ids(s.incidents) && !IsDuplicateId(s.incidents, k.incident) {
        ReferenceKept(s, k);
      }
    }
    KeysAfterMigration(s, Key("", 0));
  }

  lemma IncidentsAfterMigration(s: Tables)
    requires Distinct(Ids(s.incidents))
    ensures Distinct(Ids(Migrated(s).incidents)) && Distinct(Episodes(Migrated(s).incidents))
  {
    KeepersUnique(s.incidents);
  }

  lemma MigratedJobs(s: Tables, j: nat)
    requires OutboxSound(s) && Distinct(Ids(s.incidents)) && j < |Migrated(s).jobs|
    ensures var t := Migrated(s);
            && t.jobs[j].incident in Ids(t.incidents)
            && (t.jobs[j].status.Succeeded? <==> RowKey(t.jobs[j]) in ResultKeys(t))
  {
    hide EvidenceClosed;
    var t, all := Migrated(s), s.incidents;
    var r := t.jobs[j];
    KeptMembers(s.jobs, RowKey, all, r);
    KeysAfterMigration(s, RowKey(r));
    var i :| 0 <= i < |s.jobs| && s.jobs[i] == r;
    ReferenceKept(s, RowKey(r));
  }

  lemma MigratedEvidence(s: Tables, i: nat, j: nat)
    requires EvidenceClosed(s) && i < |Migrated(s).results| && j < |Migrated(s).bundles|
    requires Migrated(s).bundles[j].key == Migrated(s).results[i].key
    ensures WellNumbered(Migrated(s).bundles[j].bundle)
    ensures Storable(Migrated(s).bundles[j].bundle, Migrated(s).results[i].analysis)
  {
    hide WellNumbered, Storable, Kept, IsDuplicateId;
    var t := Migrated(s);
    KeptMembers(s.results, ResultKey, s.incidents, t.results[i]);
    KeptMembers(s.bundles, BundleKey, s.incidents, t.bundles[j]);
    var i' :| 0 <= i' < |s.results| && s.results[i'] == t.results[i];
    var j' :| 0 <= j' < |s.bundles| && s.bundles[j'] == t.bundles[j];
  }

  /** Of a sound outbox with repeated episodes the migration makes sound tables, uniqueness included. */
  lemma MigrationEstablishesSound(s: Tables)
    requires OutboxSound(s) && Distinct(Ids(s.incidents))
    ensures Sound(Migrated(s))
    ensures forall k | Undelivered(Migrated(s), k) :: Undelivered(s, k)
  {
    hide Migrated, Distinct, IsDuplicateId, WellNumbered, Storable;
    var t := Migrated(s);
    IncidentsAfterMigration(s);
    KeysAfterMigration(s, Key("", 0));
    forall j | 0 <= j < |t.jobs|
      ensures t.jobs[j].incident in Ids(t.incidents)
      ensures t.jobs[j].status.Succeeded? <==> RowKey(t.jobs[j]) in ResultKeys(t)
    {
      MigratedJobs(s, j);
    }
    forall k: Key
      ensures k in BundleKeys(t) <==> k in ResultKeys(t)
      ensures k in RowKeys(t.deliveries) ==> k in ResultKeys(t)
      ensures k in ResultKeys(t) ==> k in RowKeys(t.jobs)
      ensures Undelivered(t, k) ==> Undelivered(s, k)
    {
      KeysAfterMigration(s, k);
    }
    forall i, j | 0 <= i < |t.results| && 0 <= j < |t.bundles| && t.bundles[j].key == t.results[i].key
      ensures WellNumbered(t.bundles[j].bundle) && Storable(t.bundles[j].bundle, t.results[i].analysis)
    {
      MigratedEvidence(s, i, j);
    }
  }

  /** In every child table the rows of a kept incident are there, unchanged and as often; no others are. */
  lemma MigratedRows(s: Tables)
    requires Distinct(Ids(s.incidents))
    requires forall r | r in s.jobs || r in s.deliveries :: r.incident in Ids(s.incidents)
    requires forall r | r in s.bundles :: r.key.incident in Ids(s.incidents)
    requires forall r | r in s.results :: r.key.incident in Ids(s.incidents)
    ensures var t, ids := Migrated(s), Ids(Migrated(s).incidents);
            && (forall r :: multiset(t.jobs)[r] == if r.incident in ids then multiset(s.jobs)[r] else 0)
            && (forall r :: multiset(t.deliveries)[r] == if r.incident in ids then multiset(s.deliveries)[r] else 0)
            && (forall r :: multiset(t.bundles)[r] == if r.key.incident in ids then multiset(s.bundles)[r] else 0)
            && (forall r :: multiset(t.results)[r] == if r.key.incident in ids then multiset(s.results)[r] else 0)
  {
    hide Kept, Keepers;
    var t, ids := Migrated(s), Ids(Migrated(s).incidents);
    forall r ensures multiset(t.jobs)[r] == if r.incident in ids then multiset(s.jobs)[r] else 0 {
      NoOrphanRows(s.incidents, s.jobs, RowKey, r);
    }
    forall r ensures multiset(t.deliveries)[r] == if r.incident in ids then multiset(s.deliveries)[r] else 0 {
      NoOrphanRows(s.incidents, s.deliveries, RowKey, r);
    }
    forall r ensures multiset(t.bundles)[r] == if r.key.incident in ids then multiset(s.bundles)[r] else 0 {
      NoOrphanRows(s.incidents, s.bundles, BundleKey, r);
    }
    forall r ensures multiset(t.results)[r] == if r.key.incident in ids then multiset(s.results)[r] else 0 {
      NoOrphanRows(s.incidents, s.results, ResultKey, r);
    }
  }

  /** Of each dedup key and start time one incident is left, unchanged, with the least id there was. */
  lemma MigratedIncidents(s: Tables, d: Incident)
    requires Distinct(Ids(s.incidents))
    ensures d in Migrated(s).incidents <==>
            d in s.incidents
            && forall i | 0 <= i < |s.incidents| && s.incidents[i].dedupKey == d.dedupKey
                          && s.incidents[i].startedAt == d.startedAt ::
                 s.incidents[i].id == d.id || Less(d.id, s.incidents[i].id)
    ensures var kept := Migrated(s).incidents;
            forall i, j | 0 <= i < j < |kept| ::
              kept[i].dedupKey != kept[j].dedupKey || kept[i].startedAt != kept[j].startedAt
  {
    var all, kept := s.incidents, Migrated(s).incidents;
    LeastOfMembers(all, all, d);
    forall i | 0 <= i < |all| ensures Less(all[i].id, d.id) <==> all[i].id != d.id && !Less(d.id, all[i].id) {
      LessTrichotomy(all[i].id, d.id);
    }
    assert IsDuplicate(all, d) <==>
           exists k :: 0 <= k < |all| && EpisodeOf(all[k]) == EpisodeOf(d) && Less(all[k].id, d.id);
    KeepersUnique(all);
    forall i, j | 0 <= i < j < |kept|
      ensures kept[i].dedupKey != kept[j].dedupKey || kept[i].startedAt != kept[j].startedAt
    {
      assert Episodes(kept)[i] != Episodes(kept)[j];
    }
  }

  // ---------------------------------------------------------------- the statements

  /** The tables during the migration. */
  class LegacyTables {
    var incidents: seq<Incident>
    var jobs: seq<Row>
    var bundles: seq<EvidenceRow>
    var results: seq<ResultRow>
    var deliveries: seq<Row>

    function View(): Tables
      reads this
    {
      Tables(incidents, jobs, bundles, results, deliveries)
    }

    constructor (s: Tables)
      ensures View() == s
    {
      incidents, jobs, bundles, results, deliveries := s.incidents, s.jobs, s.bundles, s.results, s.deliveries;
    }

    /** The four child deletes in their order. */
    method DeleteChildren()
      modifies this
      ensures incidents == old(incidents)
      ensures View() == Migrated(old(View())).(incidents := incidents)
    {
      deliveries := DeleteRows(deliveries, RowKey, incidents);
      results := DeleteRows(results, ResultKey, incidents);
      bundles := DeleteRows(bundles, BundleKey, incidents);
      jobs := DeleteRows(jobs, RowKey, incidents);
    }

    /** The last delete, row by row in whatever order the server finds duplicates. */
    method DeleteDuplicates()
      modifies `incidents
      ensures incidents == Keepers(old(incidents))
    {
      while exists i :: 0 <= i < |incidents| && IsDuplicate(incidents, incidents[i])
        invariant Keepers(incidents) == Keepers(old(incidents))
        decreases |incidents|
      {
        var i :| 0 <= i < |incidents| && IsDuplicate(incidents, incidents[i]);
        KeepersAfterDelete(incidents, i);
        incidents := Without(incidents, i);
      }
      NoDuplicatesNothingToDo(incidents, incidents);
    }

    /** upgrade; `unique` is whether the unique constraint can then be created. */
    method Upgrade() returns (unique: bool)
      requires Distinct(Ids(incidents))
      modifies this
      ensures View() == Migrated(old(View()))
      ensures unique && Distinct(Episodes(incidents))
    {
      DeleteChildren();
      KeepersUnique(incidents);
      DeleteDuplicates();
      unique := forall i, j | 0 <= i < j < |incidents| :: EpisodeOf(incidents[i]) != EpisodeOf(incidents[j]);
      assert forall i | 0 <= i < |incidents| :: Episodes(incidents)[i] == EpisodeOf(incidents[i]);
    }
  }

  method DeleteRows<T>(rows: seq<T>, key: T -> Key, incidents: seq<Incident>) returns (kept: seq<T>)
    ensures kept == Kept(rows, key, incidents)
  {
    kept := [];
    for i := 0 to |rows|
      invariant kept == Kept(rows[..i], key, incidents)
    {
      assert rows[..i + 1][..i] == rows[..i];
      if !IsDuplicateId(incidents, key(rows[i]).incident) {
        kept := kept + [rows[i]];
      }
    }
    assert rows[..|rows|] == rows;
  }
}
