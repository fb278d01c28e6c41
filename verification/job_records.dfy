/** The durable job record, the snapshot-plus-journal store, and what a restart
    reads back from it. */
module JobRecords {
  import opened Options

  type Id = string

  /** Clock readings; 0 is the zero time of a record that never had the field. */
  type Time = int

  datatype Status = Queued | Running | Succeeded | Failed | Cancelled | Interrupted

  predicate Terminal(s: Status) {
    s == Succeeded || s == Failed || s == Cancelled || s == Interrupted
  }

  datatype Origin = Origin(kind: string, requestId: string, operation: string)

  datatype RunInfo = RunInfo(
    startedAt: Option<Time>, finishedAt: Option<Time>, exitCode: Option<int>, result: Option<string>, error: string)

  datatype LogInfo = LogInfo(count: nat, bytes: nat, truncated: bool)

  datatype Recovery = Recovery(recovered: bool, status: string, retriable: bool)

  datatype Record = Record(
    id: Id,
    origin: Origin,
    status: Status,
    resource: string,
    createdAt: Time,
    updatedAt: Time,
    key: string,
    run: RunInfo,
    log: LogInfo,
    recovery: Recovery)

  type Table = map<Id, Record>

  /** Reading a record back fills in a missing update time. */
  function Restore(r: Record): Record {
    if r.updatedAt == 0 then r.(updatedAt := r.createdAt) else r
  }

  /** Records that survive a write and a read unchanged; one without an id survives only in a
      snapshot. */
  predicate Storable(r: Record) {
    r.updatedAt == 0 ==> r.createdAt == 0
  }

  ghost predicate Sound(t: Table) {
    forall id :: id in t ==> t[id].id == id && Storable(t[id])
  }

  lemma SoundUpdate(t: Table, r: Record)
    requires Sound(t) && Storable(r)
    ensures Sound(t[r.id := r])
  {
  }

  function Lookup(t: Table, id: Id): Option<Record> {
    if id in t then Some(t[id]) else None
  }

  // ---------- the store ----------

  datatype Store = Store(snapshot: seq<Record>, journal: seq<Record>)

  /** The three writes that reach the disk. Each is atomic; a crash falls between two. */
  datatype Effect = Append(record: Record) | Publish(records: seq<Record>) | Truncate

  function Apply(d: Store, e: Effect): Store {
    match e
    case Append(r) => d.(journal := d.journal + [r])
    case Publish(rs) => d.(snapshot := rs)
    case Truncate => d.(journal := [])
  }

  function ApplyAll(d: Store, es: seq<Effect>): Store {
    if es == [] then d else Apply(ApplyAll(d, es[..|es| - 1]), es[|es| - 1])
  }

  lemma ApplyOneMore(d: Store, es: seq<Effect>, k: nat)
    requires 0 < k <= |es|
    ensures ApplyAll(d, es[..k]) == Apply(ApplyAll(d, es[..k - 1]), es[k - 1])
  {
    assert es[..k][..k - 1] == es[..k - 1];
  }

  lemma ApplyAllConcat(d: Store, a: seq<Effect>, b: seq<Effect>)
    ensures ApplyAll(d, a + b) == ApplyAll(ApplyAll(d, a), b)
  {
    if b == [] {
      assert a + b == a;
    } else {
      assert (a + b)[..|a + b| - 1] == a + b[..|b| - 1];
      ApplyAllConcat(d, a, b[..|b| - 1]);
    }
  }

  /** The last record of a job in a file. */
  function Latest(rs: seq<Record>, id: Id): Option<Record> {
    if rs == [] then None
    else if rs[|rs| - 1].id == id then Some(rs[|rs| - 1])
    else Latest(rs[..|rs| - 1], id)
  }

  /** What a restart finds for a job: its last journal record, else its last snapshot
      record. Journal records without an id are skipped. */
  function Recorded(d: Store, id: Id): Option<Record> {
    var newest := if id == "" then None else Latest(d.journal, id);
    Restored(if newest.Some? then newest else Latest(d.snapshot, id))
  }

  function Restored(found: Option<Record>): Option<Record> {
    if found.Some? then Some(Restore(found.value)) else None
  }

  /** The table loaded from a store, before interruption and trimming. */
  ghost predicate Replays(d: Store, t: Table) {
    forall id :: Lookup(t, id) == Recorded(d, id)
  }

  lemma {:induction false} LatestHasId(rs: seq<Record>, id: Id)
    ensures Latest(rs, id).Some? ==> Latest(rs, id).value.id == id && Latest(rs, id).value in rs
    ensures Latest(rs, id).None? <==> forall r :: r in rs ==> r.id != id
  {
    if rs != [] {
      var init, last := rs[..|rs| - 1], rs[|rs| - 1];
      assert rs == init + [last];
      LatestHasId(init, id);
    }
  }

  /** Loading the files record by record: the next journal record (or, before there are
      any, the next snapshot record) replaces that job's entry. */
  lemma ReplayOfOneMore(snapshot: seq<Record>, journal: seq<Record>, r: Record, t: Table)
    requires Replays(Store(snapshot, journal), t)
    ensures Replays(Store(snapshot, journal + [r]), if r.id == "" then t else t[r.id := Restore(r)])
    ensures journal == [] && r.id != "" ==> Replays(Store(snapshot + [r], []), t[r.id := Restore(r)])
  {
    assert (journal + [r])[..|journal|] == journal;
    assert (snapshot + [r])[..|snapshot|] == snapshot;
    var t' := if r.id == "" then t else t[r.id := Restore(r)];
    forall id
      ensures Lookup(t', id) == Recorded(Store(snapshot, journal + [r]), id)
      ensures journal == [] && r.id != "" ==> Lookup(t', id) == Recorded(Store(snapshot + [r], []), id)
    {
      assert Lookup(t, id) == Recorded(Store(snapshot, journal), id);
    }
  }

  lemma RecordedIsStorable(d: Store, id: Id)
    requires Recorded(d, id).Some?
    ensures Recorded(d, id).value.id == id && Storable(Recorded(d, id).value)
  {
    LatestHasId(d.journal, id);
    LatestHasId(d.snapshot, id);
  }

  // ---------- writing one record ----------

  /** `rs` is a complete listing of the table. */
  ghost predicate Lists(rs: seq<Record>, t: Table) {
    && |rs| == |t|
    && (forall r :: r in rs ==> r.id in t && t[r.id] == r)
    && (forall id :: id in t ==> t[id] in rs)
  }

  lemma ListsInAnyOrder(rs: seq<Record>, sorted: seq<Record>, t: Table)
    requires Lists(rs, t) && multiset(sorted) == multiset(rs)
    ensures Lists(sorted, t)
  {
    assert |multiset(sorted)| == |multiset(rs)|;
    forall r ensures r in sorted <==> r in rs {
      assert r in multiset(sorted) <==> r in multiset(rs);
    }
  }

  /** The size of a file of records. */
  function FileBytes(rs: seq<Record>, bytes: Record -> nat): nat {
    if rs == [] then 0 else FileBytes(rs[..|rs| - 1], bytes) + bytes(rs[|rs| - 1])
  }

  /** In the order of creation. */
  ghost predicate ByAge(rs: seq<Record>) {
    forall i, j :: 0 <= i < j < |rs| ==> rs[i].createdAt <= rs[j].createdAt
  }

  /** Putting a record in its place keeps the order. */
  lemma ByAgeWithOneMore(rs: seq<Record>, i: nat, r: Record)
    requires ByAge(rs) && i <= |rs|
    requires (i > 0 ==> rs[i - 1].createdAt <= r.createdAt) && (i < |rs| ==> r.createdAt <= rs[i].createdAt)
    ensures ByAge(rs[..i] + [r] + rs[i..])
  {
    var more := rs[..i] + [r] + rs[i..];
    forall p, q | 0 <= p < q < |more|
      ensures more[p].createdAt <= more[q].createdAt
    {
      AgeAt(rs, i, r, p);
      AgeAt(rs, i, r, q);
    }
  }

  lemma AgeAt(rs: seq<Record>, i: nat, r: Record, p: nat)
    requires ByAge(rs) && i <= |rs| && p <= |rs|
    requires (i > 0 ==> rs[i - 1].createdAt <= r.createdAt) && (i < |rs| ==> r.createdAt <= rs[i].createdAt)
    ensures var more := rs[..i] + [r] + rs[i..];
      && more[p] == (if p < i then rs[p] else if p == i then r else rs[p - 1])
      && (p < i ==> more[p].createdAt <= r.createdAt) && (p > i ==> r.createdAt <= more[p].createdAt)
  {
  }

  lemma SameWithOneMore(rs: seq<Record>, i: nat, r: Record)
    requires i <= |rs|
    ensures multiset(rs[..i] + [r] + rs[i..]) == multiset(rs) + multiset{r}
  {
    assert rs == rs[..i] + rs[i..];
    assert multiset(rs) == multiset(rs[..i]) + multiset(rs[i..]);
    assert multiset(rs[..i] + [r] + rs[i..]) == multiset(rs[..i]) + multiset([r]) + multiset(rs[i..]);
  }

  /** The effects of recording `r`: the append may fail (nothing else follows); after it
      a compaction may publish the table and may then truncate the journal. */
  ghost predicate Persisted(es: seq<Effect>, r: Record, t: Table) {
    && |es| <= 3
    && (|es| > 0 ==> es[0] == Append(r))
    && (|es| > 1 ==> es[1].Publish? && Lists(es[1].records, t))
    && (|es| > 2 ==> es[2] == Truncate)
  }

  lemma ListingHoldsTable(rs: seq<Record>, t: Table, id: Id)
    requires Sound(t) && Lists(rs, t)
    ensures Latest(rs, id) == Lookup(t, id)
  {
    LatestHasId(rs, id);
  }

  lemma AppendReads(d: Store, r: Record, id: Id)
    requires Storable(r)
    ensures Recorded(Apply(d, Append(r)), id) == if id == r.id && id != "" then Some(r) else Recorded(d, id)
    ensures Latest(Apply(d, Append(r)).journal, id) == if id == r.id then Some(r) else Latest(d.journal, id)
  {
    assert (d.journal + [r])[..|d.journal|] == d.journal;
  }

  lemma PublishReads(d: Store, rs: seq<Record>, t: Table, id: Id)
    requires Sound(t) && Lists(rs, t)
    ensures Recorded(Apply(d, Publish(rs)), id) ==
      if id != "" && Latest(d.journal, id).Some? then Recorded(d, id) else Lookup(t, id)
    ensures Recorded(Apply(Apply(d, Publish(rs)), Truncate), id) == Lookup(t, id)
  {
    ListingHoldsTable(rs, t, id);
  }

  /** Whatever instant a crash picks, each job reads back as before, as the record being
      written, or as the table holds it; and each clause says when it must be which. */
  lemma PersistCrashPoints(d: Store, t: Table, r: Record, es: seq<Effect>, k: nat, id: Id)
    requires Sound(t) && Storable(r) && Persisted(es, r, t) && k <= |es|
    ensures var was, now := Recorded(d, id), Recorded(ApplyAll(d, es[..k]), id);
      && (now == was || (id == r.id && now == Some(r)) || now == Lookup(t, id))
      && (k == 0 ==> now == was)
      && (1 <= k < 3 && id == r.id != "" ==> now == Some(r))
      && (k <= 1 && (id != r.id || id == "") ==> now == was)
      && (k == 2 && (id == "" || (id != r.id && Latest(d.journal, id).None?)) ==> now == Lookup(t, id))
      && (k == 2 && id != "" && Latest(d.journal, id).Some? && id != r.id ==> now == was)
      && (k == 3 ==> now == Lookup(t, id))
  {
    assert es[..0] == [];
    if k > 0 {
      ApplyOneMore(d, es, 1);
      AppendReads(d, r, id);
    }
    if k > 1 {
      ApplyOneMore(d, es, 2);
      PublishReads(Apply(d, es[0]), es[1].records, t, id);
    }
    if k > 2 {
      ApplyOneMore(d, es, 3);
    }
  }

  /** Which jobs the store may be behind on: the append of the record may have failed, a journal
      record without an id is never read, and a completed compaction writes every job. */
  function StaleAfter(stale: set<Id>, r: Record, es: seq<Effect>): set<Id> {
    if es == [] || (|es| == 1 && r.id == "") then stale + {r.id} else if |es| < 3 then stale - {r.id} else {}
  }

  /** Every other job reads back as the table holds it. */
  ghost predicate AgreesBut(d: Store, t: Table, stale: set<Id>) {
    forall id :: id !in stale ==> Recorded(d, id) == Lookup(t, id)
  }

  /** Recording a job makes it agree and keeps every other agreement, compaction or not. */
  lemma AgreementGrows(d: Store, es: seq<Effect>, t: Table, r: Record, stale: set<Id>)
    requires Sound(t) && Storable(r) && Persisted(es, r, t) && Lookup(t, r.id) == Some(r)
    requires forall id :: id !in stale && id != r.id ==> Recorded(d, id) == Lookup(t, id)
    ensures AgreesBut(ApplyAll(d, es), t, StaleAfter(stale, r, es))
  {
    assert es[..|es|] == es;
    forall id | id !in StaleAfter(stale, r, es)
      ensures Recorded(ApplyAll(d, es), id) == Lookup(t, id)
    {
      PersistCrashPoints(d, t, r, es, |es|, id);
    }
  }

  // ---------- trimming ----------

  /** Some of the oldest terminal jobs are gone, and not more than it takes to reach `max`.
      Equal creation times may be resolved either way. */
  ghost predicate PartlyTrimmed(before: Table, after: Table, max: nat) {
    && after.Keys <= before.Keys
    && (forall id :: id in after ==> after[id] == before[id])
    && (forall id :: id in before && id !in after ==> Terminal(before[id].status))
    && (forall gone, stays :: gone in before && gone !in after && stays in after && Terminal(after[stays].status)
          ==> before[gone].createdAt <= after[stays].createdAt)
    && (|before| <= max ==> after == before)
    && (|before| > max ==> |after| >= max)
  }

  /** The result of trimming a table to `max` jobs: live jobs always stay, and only the
      oldest terminal ones go. */
  ghost predicate Trimmed(before: Table, after: Table, max: nat) {
    && PartlyTrimmed(before, after, max)
    && (|after| > max ==> forall id :: id in after ==> !Terminal(after[id].status))
  }

  ghost predicate OldestIn(t: Table, oldest: Id) {
    && oldest in t && Terminal(t[oldest].status)
    && forall id :: id in t && Terminal(t[id].status) ==> t[oldest].createdAt <= t[id].createdAt
  }

  lemma TrimStep(before: Table, t: Table, oldest: Id, max: nat)
    requires PartlyTrimmed(before, t, max) && |t| > max
    requires OldestIn(t, oldest)
    ensures PartlyTrimmed(before, t - {oldest}, max) && |t - {oldest}| == |t| - 1
  {
    var t' := t - {oldest};
    assert t'.Keys == t.Keys - {oldest};
    assert |t'| == |t'.Keys|;
    assert |before| == |before.Keys| && |t| == |t.Keys|;
    if |before| <= max {
      assert false;
    }
  }
}
