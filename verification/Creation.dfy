/** What a batch of create commands does to the tables, whatever repeats it contains. */
module Creation {
  import opened Common
  import opened LeaseQueue
  import opened Store

  function ItemEpisode(x: Item): Episode {
    CommandEpisode(x.command)
  }

  /** Item i is the first of the batch for an episode the tables do not have. */
  predicate IsFirstNew(s: Tables, items: seq<Item>, i: nat)
    requires i < |items|
  {
    && ItemEpisode(items[i]) !in Episodes(s.incidents)
    && forall j | 0 <= j < i :: ItemEpisode(items[j]) != ItemEpisode(items[i])
  }

  function FirstNew(s: Tables, items: seq<Item>): seq<Item> {
    if items == [] then []
    else FirstNew(s, items[..|items| - 1]) + if IsFirstNew(s, items, |items| - 1) then [Last(items)] else []
  }

  function NewIncidents(items: seq<Item>): seq<Incident> {
    seq(|items|, i requires 0 <= i < |items| => IncidentFrom(items[i]))
  }

  function NewJobs(items: seq<Item>): seq<Row> {
    seq(|items|, i requires 0 <= i < |items| => NewRow(items[i].id, 1, items[i].now))
  }

  function CreatedFor(items: seq<Item>, firstJob: nat): seq<Created> {
    seq(|items|, i requires 0 <= i < |items| => Created(items[i].id, firstJob + i, 1))
  }

  /** The tables extended by one incident and one job per item, everything else untouched. */
  function Extended(s: Tables, added: seq<Item>): Tables {
    s.(incidents := s.incidents + NewIncidents(added), jobs := s.jobs + NewJobs(added))
  }

  lemma ExtendedByOneMore(s: Tables, added: seq<Item>, x: Item)
    ensures WithIncident(Extended(s, added), x) == Extended(s, added + [x])
    ensures CreatedFor(added + [x], |s.jobs|) == CreatedFor(added, |s.jobs|) + [Created(x.id, |s.jobs| + |added|, 1)]
  {
    assert NewIncidents(added + [x]) == NewIncidents(added) + [IncidentFrom(x)];
    assert NewJobs(added + [x]) == NewJobs(added) + [NewRow(x.id, 1, x.now)];
  }

  ghost predicate CoversEpisodes(s: Tables, items: seq<Item>, t: Tables) {
    forall e :: e in Episodes(t.incidents) <==>
                e in Episodes(s.incidents) || exists i :: 0 <= i < |items| && ItemEpisode(items[i]) == e
  }

  lemma CoversOneMore(s: Tables, items: seq<Item>, t: Tables, u: Tables)
    requires items != [] && CoversEpisodes(s, items[..|items| - 1], t)
    requires (u == t && ItemEpisode(Last(items)) in Episodes(t.incidents)) || u == WithIncident(t, Last(items))
    ensures CoversEpisodes(s, items, u)
  {
    var front, x := items[..|items| - 1], Last(items);
    IdsPushed(t.incidents, IncidentFrom(x));
    forall e ensures e in Episodes(u.incidents) <==>
                     e in Episodes(s.incidents) || exists i :: 0 <= i < |items| && ItemEpisode(items[i]) == e
    {
      if i :| 0 <= i < |front| && ItemEpisode(front[i]) == e {
        assert items[i] == front[i];
      }
      assert ItemEpisode(items[|items| - 1]) == ItemEpisode(x);
    }
  }

  lemma NewIffAbsent(s: Tables, items: seq<Item>, t: Tables)
    requires items != [] && CoversEpisodes(s, items[..|items| - 1], t)
    ensures IsFirstNew(s, items, |items| - 1) <==> ItemEpisode(Last(items)) !in Episodes(t.incidents)
  {
    var front := items[..|items| - 1];
    assert forall j | 0 <= j < |front| :: front[j] == items[j];
  }

  /**
   A batch that does not raise leaves the old keys and the commands' keys; what it returns is
   the first occurrence of each new key, in order, each with one new incident and one new job.
   */
  lemma {:induction false} BatchCreatesFirstNew(s: Tables, items: seq<Item>)
    requires CreateLoop(s, items).Some?
    ensures var (t, created) := CreateLoop(s, items).value;
            && t == Extended(s, FirstNew(s, items))
            && created == CreatedFor(FirstNew(s, items), |s.jobs|)
            && CoversEpisodes(s, items, t)
  {
    var (t, created) := CreateLoop(s, items).value;
    if items == [] {
      assert NewIncidents([]) == [] && NewJobs([]) == [];
    } else {
      var front, x := items[..|items| - 1], Last(items);
      BatchCreatesFirstNew(s, front);
      var (u, earlier) := CreateLoop(s, front).value;
      NewIffAbsent(s, items, u);
      CoversOneMore(s, items, u, t);
      ExtendedByOneMore(s, FirstNew(s, front), x);
    }
  }

  /** An id that the primary key refuses when item i of the batch is inserted. */
  predicate IdTaken(s: Tables, items: seq<Item>, i: nat)
    requires i < |items|
  {
    items[i].id in Ids(s.incidents) || exists j :: 0 <= j < i && IsFirstNew(s, items, j) && items[j].id == items[i].id
  }

  /** Item i raises: a fault at the incident, a taken id, or a fault at the job of a new incident. */
  predicate Raises(s: Tables, items: seq<Item>, i: nat)
    requires i < |items|
  {
    items[i].fault.AtIncident? || IdTaken(s, items, i) || (items[i].fault.AtJob? && IsFirstNew(s, items, i))
  }

  lemma FirstNewFront(s: Tables, items: seq<Item>, i: nat)
    requires i < |items| - 1
    ensures IsFirstNew(s, items[..|items| - 1], i) <==> IsFirstNew(s, items, i)
  {
    assert forall j | 0 <= j <= i :: items[..|items| - 1][j] == items[j];
  }

  lemma RaisesFront(s: Tables, items: seq<Item>, i: nat)
    requires i < |items| - 1
    ensures Raises(s, items[..|items| - 1], i) <==> Raises(s, items, i)
  {
    var front := items[..|items| - 1];
    forall j | 0 <= j <= i ensures IsFirstNew(s, front, j) <==> IsFirstNew(s, items, j) {
      FirstNewFront(s, items, j);
    }
  }

  /** Every new item is in the list, and every listed item is new. */
  lemma {:induction false} FirstNewHas(s: Tables, items: seq<Item>, j: nat) returns (k: nat)
    requires j < |items| && IsFirstNew(s, items, j)
    ensures k < |FirstNew(s, items)| && FirstNew(s, items)[k] == items[j]
    decreases |items|
  {
    hide IsFirstNew;
    var front := items[..|items| - 1];
    if j < |front| {
      FirstNewFront(s, items, j);
      k := FirstNewHas(s, front, j);
    } else {
      k := |FirstNew(s, front)|;
    }
  }

  lemma {:induction false} FirstNewOnly(s: Tables, items: seq<Item>, k: nat) returns (j: nat)
    requires k < |FirstNew(s, items)|
    ensures j < |items| && IsFirstNew(s, items, j) && FirstNew(s, items)[k] == items[j]
    decreases |items|
  {
    hide IsFirstNew;
    var front := items[..|items| - 1];
    if k < |FirstNew(s, front)| {
      j := FirstNewOnly(s, front, k);
      FirstNewFront(s, items, j);
    } else {
      j := |items| - 1;
    }
  }

  /** Which ids a batch finds taken at its last item. */
  lemma TakenIds(s: Tables, items: seq<Item>)
    requires items != [] && CreateLoop(s, items[..|items| - 1]).Some?
    ensures Last(items).id in Ids(CreateLoop(s, items[..|items| - 1]).value.0.incidents)
            <==> IdTaken(s, items, |items| - 1)
  {
    hide FirstNew, CreateLoop, IsFirstNew;
    var front, id, n := items[..|items| - 1], Last(items).id, |s.incidents|;
    var added := FirstNew(s, front);
    BatchCreatesFirstNew(s, front);
    var ids := Ids(Extended(s, added).incidents);
    assert forall i | 0 <= i < |ids| :: ids[i] == if i < n then Ids(s.incidents)[i] else added[i - n].id;
    if i :| 0 <= i < |ids| && ids[i] == id && id !in Ids(s.incidents) {
      var j := FirstNewOnly(s, front, i - n);
      FirstNewFront(s, items, j);
    }
    if id in Ids(s.incidents) {
      var i :| 0 <= i < n && Ids(s.incidents)[i] == id;
      assert ids[i] == id;
    } else if j :| 0 <= j < |front| && IsFirstNew(s, items, j) && items[j].id == id {
      FirstNewFront(s, items, j);
      var k := FirstNewHas(s, front, j);
      assert ids[n + k] == id;
    }
  }

  /** A batch raises exactly if one of its items does, and then the tables are as they were. */
  lemma {:induction false} BatchRaisesIff(s: Tables, items: seq<Item>)
    ensures CreateLoop(s, items).None? <==> exists i :: 0 <= i < |items| && Raises(s, items, i)
    ensures CreateMany(s, items).1.None? ==> CreateMany(s, items).0 == s
  {
    if items != [] {
      var front, n := items[..|items| - 1], |items| - 1;
      BatchRaisesIff(s, front);
      forall i | 0 <= i < n ensures Raises(s, front, i) <==> Raises(s, items, i) {
        RaisesFront(s, items, i);
      }
      if CreateLoop(s, front).Some? {
        var (u, earlier) := CreateLoop(s, front).value;
        BatchCreatesFirstNew(s, front);
        NewIffAbsent(s, items, u);
        TakenIds(s, items);
        LastRaises(s, items, u);
      }
    }
  }

  lemma LastRaises(s: Tables, items: seq<Item>, u: Tables)
    requires items != []
    requires Last(items).id in Ids(u.incidents) <==> IdTaken(s, items, |items| - 1)
    requires ItemEpisode(Last(items)) !in Episodes(u.incidents) <==> IsFirstNew(s, items, |items| - 1)
    ensures TryInsert(u, Last(items)).Raised? <==> Raises(s, items, |items| - 1)
  {
  }

  // ---------------------------------------------------------------- what is written

  /** A command is a duplicate exactly if the tables have an incident with its dedup key and start time. */
  lemma DuplicateIff(s: Tables, x: Item)
    requires x.fault.NoFault? && x.id !in Ids(s.incidents)
    ensures TryInsert(s, x).Duplicate? <==>
            exists i :: 0 <= i < |s.incidents| && s.incidents[i].dedupKey == x.command.dedupKey
                        && s.incidents[i].startedAt == x.command.startedAt
    ensures !TryInsert(s, x).Raised?
  {
    var e := CommandEpisode(x.command);
    assert forall i | 0 <= i < |s.incidents| :: Episodes(s.incidents)[i] == EpisodeOf(s.incidents[i]);
    if i :| 0 <= i < |s.incidents| && s.incidents[i].dedupKey == x.command.dedupKey
            && s.incidents[i].startedAt == x.command.startedAt {
      assert Episodes(s.incidents)[i] == e;
    }
  }

  /** create_with_job succeeds as a batch of one would that is new, and otherwise raises, leaving the tables alone. */
  lemma CreateOneOrRaise(s: Tables, x: Item)
    ensures var (t, created) := CreateWithJob(s, x);
            && (created.Some? <==>
                  x.fault.NoFault? && x.id !in Ids(s.incidents) && ItemEpisode(x) !in Episodes(s.incidents))
            && (created.Some? ==> CreateMany(s, [x]) == (t, Some([created.value])))
            && (created.None? ==> t == s)
  {
    if TryInsert(s, x).Inserted? {
      BatchOfOne(s, x, [x]);
    }
  }

  lemma BatchOfOne(s: Tables, x: Item, items: seq<Item>)
    requires items == [x] && TryInsert(s, x).Inserted?
    ensures CreateLoop(s, items) == Some((WithIncident(s, x), [Created(x.id, |s.jobs|, 1)]))
  {
    var front := items[..0];
    assert front == [];
    assert CreateLoop(s, front) == Some((s, []));
    assert Last(items) == x && items[..|items| - 1] == front;
    var c := Created(x.id, |s.jobs|, 1);
    assert [] + [c] == [c];
  }

  /** Each new incident is its command's, and its job waits, untried, due at once. */
  lemma NewRowsAreCommands(s: Tables, items: seq<Item>, k: nat)
    requires CreateLoop(s, items).Some? && k < |FirstNew(s, items)|
    ensures var (t, created) := CreateLoop(s, items).value;
            var x, n, m := FirstNew(s, items)[k], |s.incidents| + k, |s.jobs| + k;
            && n < |t.incidents| && m < |t.jobs| && k < |created|
            && (var i := t.incidents[n];
                && i.id == x.id && i.dedupKey == x.command.dedupKey && i.startedAt == x.command.startedAt
                && i.fingerprint == x.command.fingerprint && i.payloadVersion == x.command.payloadVersion
                && i.event == x.command.event)
            && (var j := t.jobs[m];
                && j.incident == x.id && j.revision == 1 && j.status.Pending? && j.attempts == 0
                && j.availableAt == j.createdAt == j.updatedAt == x.now
                && j.owner.None? && j.until.None? && j.failure.None? && j.claims == [])
            && created[k].incidentId == x.id && created[k].jobId == m && created[k].revision == 1
  {
    hide CreateLoop, FirstNew;
    BatchCreatesFirstNew(s, items);
  }

  /** Nothing is raised when no fault strikes and the drawn ids are new and different. */
  ghost predicate Untroubled(s: Tables, items: seq<Item>) {
    && (forall i | 0 <= i < |items| :: items[i].fault.NoFault? && items[i].id !in Ids(s.incidents))
    && forall i, j | 0 <= i < j < |items| :: items[i].id != items[j].id
  }

  lemma {:induction false} IdsOfBatch(s: Tables, items: seq<Item>, id: string)
    requires CreateLoop(s, items).Some? && id in Ids(CreateLoop(s, items).value.0.incidents)
    ensures id in Ids(s.incidents) || exists i :: 0 <= i < |items| && items[i].id == id
  {
    if items != [] {
      var front, x := items[..|items| - 1], Last(items);
      var (u, earlier) := CreateLoop(s, front).value;
      IdsPushed(u.incidents, IncidentFrom(x));
      if id in Ids(u.incidents) {
        IdsOfBatch(s, front, id);
        if i :| 0 <= i < |front| && front[i].id == id {
          assert items[i].id == id;
        }
      } else {
        assert items[|items| - 1].id == id;
      }
    }
  }

  lemma {:induction false} UntroubledSucceeds(s: Tables, items: seq<Item>)
    requires Untroubled(s, items)
    ensures CreateLoop(s, items).Some?
  {
    if items != [] {
      var front := items[..|items| - 1];
      UntroubledSucceeds(s, front);
      var (u, earlier) := CreateLoop(s, front).value;
      if Last(items).id in Ids(u.incidents) {
        IdsOfBatch(s, front, Last(items).id);
      }
    }
  }

  /** Sending a batch again, in any order and with any repeats, changes nothing and creates nothing. */
  lemma {:induction false} RerunIsNoOp(t: Tables, again: seq<Item>)
    requires forall i | 0 <= i < |again| :: ItemEpisode(again[i]) in Episodes(t.incidents)
    requires forall i | 0 <= i < |again| :: !again[i].fault.AtIncident? && again[i].id !in Ids(t.incidents)
    ensures CreateMany(t, again) == (t, Some([]))
  {
    if again != [] {
      RerunIsNoOp(t, again[..|again| - 1]);
    }
  }

  /** In particular right after the batch itself. */
  lemma BatchThenRerun(s: Tables, items: seq<Item>, again: seq<Item>)
    requires CreateLoop(s, items).Some?
    requires forall i | 0 <= i < |again| ::
              exists j :: 0 <= j < |items| && ItemEpisode(items[j]) == ItemEpisode(again[i])
    requires forall i | 0 <= i < |again| ::
      !again[i].fault.AtIncident? && again[i].id !in Ids(CreateLoop(s, items).value.0.incidents)
    ensures CreateMany(CreateMany(s, items).0, again) == (CreateMany(s, items).0, Some([]))
  {
    BatchCreatesFirstNew(s, items);
    RerunIsNoOp(CreateLoop(s, items).value.0, again);
  }

  /** One batch of a + b is a batch of a followed by a batch of b. */
  lemma {:induction false} BatchesCompose(s: Tables, a: seq<Item>, b: seq<Item>)
    ensures CreateLoop(s, a + b).Some? <==> CreateLoop(s, a).Some? && CreateLoop(CreateLoop(s, a).value.0, b).Some?
    ensures CreateLoop(s, a + b).Some? ==>
              var (t, c) := CreateLoop(s, a).value;
              var (u, d) := CreateLoop(t, b).value;
              CreateLoop(s, a + b).value == (u, c + d)
  {
    if b == [] {
      assert a + b == a;
      assert CreateLoop(s, a).Some? ==> CreateLoop(s, a).value.1 + [] == CreateLoop(s, a).value.1;
    } else {
      var front := b[..|b| - 1];
      assert (a + b)[..|a + b| - 1] == a + front;
      BatchesCompose(s, a, front);
      if CreateLoop(s, a + b).Some? {
        var (t, c) := CreateLoop(s, a).value;
        var (u, d) := CreateLoop(t, front).value;
        assert forall last: seq<Created> :: c + d + last == c + (d + last);
      }
    }
  }
}
