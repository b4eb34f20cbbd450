/**
 The objects behind the search machine: the registry that opens one index per
 tenant on demand, the offset store, and the per-partition consumer loop.
 */
module SearchConsumer {
  import opened Prelude
  import opened SearchIndex
  import opened SearchLog

  /** What the environment answers while one record is handled: the gate, the tenant's index on disk, the add. */
  datatype Fate = Fate(admitted: bool, found: Option<seq<Doc>>, added: bool)

  /** A tenant's entry in the registry: the documents its writer has buffered, once its index is open. */
  datatype Slot = Closed | Opened(docs: Contents)

  ghost predicate GoodFate(f: Fate) {
    f.found.Some? ==> Unique(f.found.value)
  }

  ghost predicate GoodFates(fates: seq<Fate>) {
    forall i :: 0 <= i < |fates| ==> GoodFate(fates[i])
  }

  ghost function AfterOpen(slot: Slot, f: Fate): Slot
    requires GoodFate(f)
  {
    if slot.Closed? && f.found.Some? then Opened(ContentsOf(f.found.value)) else slot
  }

  ghost function AfterWrite(slot: Slot, w: Write, f: Fate): Slot
    requires GoodFate(f)
  {
    var found := AfterOpen(slot, f);
    if found.Closed? then Closed else Opened(Upserted(found.docs, w, f.added))
  }

  /** Tenant `t`'s entry after a record; records for other tenants leave it alone. */
  ghost function AfterRecord(slot: Slot, t: string, rec: Record, f: Fate): Slot
    requires GoodFate(f)
  {
    var w := WriteOf(rec, f.admitted);
    if w.Some? && w.value.tenantId == t then AfterWrite(slot, w.value, f) else slot
  }

  ghost function AfterRecords(slot: Slot, t: string, recs: seq<Record>, fates: seq<Fate>): Slot
    requires |recs| <= |fates| && GoodFates(fates)
  {
    if recs == [] then slot
    else
      var n := |recs| - 1;
      AfterRecord(AfterRecords(slot, t, recs[..n], fates), t, recs[n], fates[n])
  }

  /** What starting up finds where the offset file should be. */
  datatype OffsetFile = Missing | Whole(offsets: map<nat, nat>) | Torn

  function Get(offsets: map<nat, nat>, partition: nat): nat {
    if partition in offsets then offsets[partition] else 0
  }

  function AfterSave(file: OffsetFile, offsets: map<nat, nat>, wrote: WriteOutcome): OffsetFile {
    match wrote
    case WroteAll => Whole(offsets)
    case WroteNothing => file
    case WrotePart => Torn
  }

  /**
   What handling a record does to one document of one tenant's entry, read off
   the record and what the environment answered.
   */
  lemma RecordIndexes(slot: Slot, t: string, rec: Record, f: Fate, id: string)
    requires GoodFate(f) && (t == "" ==> slot.Opened?)
    ensures var slot' := AfterRecord(slot, t, rec, f);
            var mine := rec.Parsed? && rec.recordId != "" && rec.tenantId == t && Routable(t, f.admitted);
            && (slot'.Opened? <==> slot.Opened? || (mine && f.found.Some?))
            && (slot'.Opened? && mine && rec.recordId == id ==>
                  Lookup(slot'.docs, id) == if f.added then Some(rec.message) else None)
            && (slot'.Opened? && slot.Opened? && !(mine && rec.recordId == id) ==>
                  Lookup(slot'.docs, id) == Lookup(slot.docs, id))
  {
  }

  // ---- A batch as a run of the machine --------------------------------

  /** The entry holds the machine's buffered documents; while it is closed the index is as it was, `before`. */
  ghost predicate Tracks(slot: Slot, t: string, i: Index, before: Index) {
    && (t == "" ==> slot.Opened?)
    && if slot.Opened? then slot.docs == i.buffered else i == before
  }

  /** A closed index is found on disk as the machine has it. */
  ghost predicate FoundAsIs(slot: Slot, f: Fate, i: Index)
    requires GoodFate(f)
  {
    slot.Closed? && f.found.Some? ==> ContentsOf(f.found.value) == i.buffered
  }

  function TenantOf(rec: Record): string {
    if rec.Parsed? then rec.tenantId else ""
  }

  /** Handling a record is the machine's Consume step, seen from any tenant's entry. */
  lemma RecordIsConsume(logs: seq<seq<Record>>, s: System, p: nat, t: string, slot: Slot, f: Fate, reachable: bool,
                        before: Index)
    requires p < |logs| == |s.off| && s.off[p] < |logs[p]| && GoodFate(f)
    requires Tracks(slot, t, IndexOf(s, t), before)
    requires t == TenantOf(logs[p][s.off[p]]) ==>
               reachable == (slot.Opened? || f.found.Some?) && FoundAsIs(slot, f, IndexOf(s, t))
    ensures var s' := Next(logs, s, Consume(p, f.admitted, reachable, f.added));
            Tracks(AfterRecord(slot, t, logs[p][s.off[p]], f), t, IndexOf(s', t), before)
  {
  }

  /** Whether record n of the batch finds its tenant's index open, or opens it. */
  ghost predicate Reaches(slots: string -> Slot, recs: seq<Record>, fates: seq<Fate>, n: nat)
    requires n < |recs| <= |fates| && GoodFates(fates)
  {
    var t := TenantOf(recs[n]);
    AfterRecords(slots(t), t, recs[..n], fates).Opened? || fates[n].found.Some?
  }

  /** The machine's steps for the first n records of a batch of partition `p`. */
  ghost function ConsumeSteps(slots: string -> Slot, p: nat, recs: seq<Record>, fates: seq<Fate>, n: nat): seq<Step>
    requires n <= |recs| <= |fates| && GoodFates(fates)
  {
    if n == 0 then []
    else
      var f := fates[n - 1];
      ConsumeSteps(slots, p, recs, fates, n - 1)
      + [Consume(p, f.admitted, Reaches(slots, recs, fates, n - 1), f.added)]
  }

  ghost predicate FoundOnDisk(slots: string -> Slot, s: System, recs: seq<Record>, fates: seq<Fate>)
    requires |recs| <= |fates| && GoodFates(fates)
  {
    forall i :: 0 <= i < |recs| ==> FoundAsIs(slots(TenantOf(recs[i])), fates[i], IndexOf(s, TenantOf(recs[i])))
  }

  /** A fetched batch of partition `p`, and registry entries that agree with the machine. */
  ghost predicate Fetched(logs: seq<seq<Record>>, s: System, p: nat, slots: string -> Slot, recs: seq<Record>,
                          fates: seq<Fate>)
  {
    && p < |logs| == |s.off| && |recs| <= |fates| && GoodFates(fates)
    && s.off[p] + |recs| <= |logs[p]| && logs[p][s.off[p]..s.off[p] + |recs|] == recs
    && (forall t :: Tracks(slots(t), t, IndexOf(s, t), IndexOf(s, t)))
    && FoundOnDisk(slots, s, recs, fates)
  }

  lemma {:induction false} RunOneMore(logs: seq<seq<Record>>, s: System, steps: seq<Step>, step: Step)
    requires Run(logs, s, steps) && CanStep(logs, Final(logs, s, steps), step)
    ensures Run(logs, s, steps + [step])
    ensures Final(logs, s, steps + [step]) == Next(logs, Final(logs, s, steps), step)
    decreases |steps|
  {
    if steps != [] {
      RunOneMore(logs, Next(logs, s, steps[0]), steps[1..], step);
      assert (steps + [step])[1..] == steps[1..] + [step];
    }
  }

  /** Once open, an entry stays open. */
  lemma {:induction false} StaysOpen(slot: Slot, t: string, recs: seq<Record>, fates: seq<Fate>)
    requires |recs| <= |fates| && GoodFates(fates) && slot.Opened?
    ensures AfterRecords(slot, t, recs, fates).Opened?
  {
    if recs != [] {
      StaysOpen(slot, t, recs[..|recs| - 1], fates);
    }
  }

  /** How far the machine is after the first n records. */
  ghost predicate CaughtUp(s: System, s': System, p: nat, slots: string -> Slot, recs: seq<Record>, fates: seq<Fate>,
                           n: nat)
    requires p < |s.off| && n <= |recs| <= |fates| && GoodFates(fates)
  {
    && s'.off == s.off[p := s.off[p] + n]
    && s'.stored == s.stored && s'.file == s.file && s'.torn == s.torn
    && forall t :: Tracks(AfterRecords(slots(t), t, recs[..n], fates), t, IndexOf(s', t), IndexOf(s, t))
  }

  lemma OneMoreRecord(logs: seq<seq<Record>>, s: System, s': System, p: nat, slots: string -> Slot, recs: seq<Record>,
                      fates: seq<Fate>, n: nat)
    requires Fetched(logs, s, p, slots, recs, fates) && n < |recs| && CaughtUp(s, s', p, slots, recs, fates, n)
    ensures var step := Consume(p, fates[n].admitted, Reaches(slots, recs, fates, n), fates[n].added);
            CanStep(logs, s', step) && CaughtUp(s, Next(logs, s', step), p, slots, recs, fates, n + 1)
  {
    var step := Consume(p, fates[n].admitted, Reaches(slots, recs, fates, n), fates[n].added);
    assert logs[p][s'.off[p]] == logs[p][s.off[p]..s.off[p] + |recs|][n] == recs[n];
    var s'' := Next(logs, s', step);
    forall t ensures Tracks(AfterRecords(slots(t), t, recs[..n + 1], fates), t, IndexOf(s'', t), IndexOf(s, t)) {
      OneMoreTracked(logs, s, s', p, slots, recs, fates, n, t);
    }
  }

  lemma OneMoreTracked(logs: seq<seq<Record>>, s: System, s': System, p: nat, slots: string -> Slot,
                       recs: seq<Record>, fates: seq<Fate>, n: nat, t: string)
    requires Fetched(logs, s, p, slots, recs, fates) && n < |recs| && CaughtUp(s, s', p, slots, recs, fates, n)
    requires logs[p][s'.off[p]] == recs[n]
    ensures var step := Consume(p, fates[n].admitted, Reaches(slots, recs, fates, n), fates[n].added);
            Tracks(AfterRecords(slots(t), t, recs[..n + 1], fates), t, IndexOf(Next(logs, s', step), t), IndexOf(s, t))
  {
    var slot := AfterRecords(slots(t), t, recs[..n], fates);
    if slots(t).Opened? {
      StaysOpen(slots(t), t, recs[..n], fates);
    }
    if t == TenantOf(recs[n]) {
      assert FoundAsIs(slots(t), fates[n], IndexOf(s, t));
    }
    RecordIsConsume(logs, s', p, t, slot, fates[n], Reaches(slots, recs, fates, n), IndexOf(s, t));
    assert recs[..n + 1][..n] == recs[..n];
  }

  lemma {:induction false} RecordsAreARun(logs: seq<seq<Record>>, s: System, p: nat, slots: string -> Slot,
                                          recs: seq<Record>, fates: seq<Fate>, n: nat)
    requires Fetched(logs, s, p, slots, recs, fates) && n <= |recs|
    ensures Run(logs, s, ConsumeSteps(slots, p, recs, fates, n))
    ensures CaughtUp(s, Final(logs, s, ConsumeSteps(slots, p, recs, fates, n)), p, slots, recs, fates, n)
  {
    if n > 0 {
      RecordsAreARun(logs, s, p, slots, recs, fates, n - 1);
      var steps := ConsumeSteps(slots, p, recs, fates, n - 1);
      OneMoreRecord(logs, s, Final(logs, s, steps), p, slots, recs, fates, n - 1);
      RunOneMore(logs, s, steps,
                 Consume(p, fates[n - 1].admitted, Reaches(slots, recs, fates, n - 1), fates[n - 1].added));
    }
  }

  /** The offset store, in memory and in its file, is the machine's. */
  ghost predicate StoreMatches(offsets: map<nat, nat>, file: OffsetFile, s: System) {
    && (forall q :: 0 <= q < |s.stored| ==> Get(offsets, q) == s.stored[q])
    && (file.Torn? <==> s.torn)
    && (!file.Torn? ==> forall q :: 0 <= q < |s.file| ==> Get(SavedIn(file), q) == s.file[q])
  }

  function SavedIn(file: OffsetFile): map<nat, nat> {
    if file.Whole? then file.offsets else map[]
  }

  lemma PersistMatches(s: System, p: nat, wrote: WriteOutcome, offsets: map<nat, nat>, file: OffsetFile)
    requires p < |s.off| == |s.stored| == |s.file| && StoreMatches(offsets, file, s)
    ensures var offsets' := offsets[p := s.off[p]];
            StoreMatches(offsets', AfterSave(file, offsets', wrote), Next([], s, Persist(p, wrote)))
  {
  }

  /**
   A whole batch is a run of the machine: one Consume per record in order, then
   one Persist. What ConsumeBatch leaves in the registry and in the offset store
   is what the machine then holds.
   */
  lemma BatchIsARun(logs: seq<seq<Record>>, s: System, p: nat, slots: string -> Slot, recs: seq<Record>,
                    fates: seq<Fate>, wrote: WriteOutcome, offsets: map<nat, nat>, file: OffsetFile)
    requires Fetched(logs, s, p, slots, recs, fates) && recs != []
    requires |s.off| == |s.stored| == |s.file| && StoreMatches(offsets, file, s)
    ensures var steps := ConsumeSteps(slots, p, recs, fates, |recs|) + [Persist(p, wrote)];
            && Run(logs, s, steps)
            && var s', offsets' := Final(logs, s, steps), offsets[p := s.off[p] + |recs|];
            && s'.off == s.off[p := s.off[p] + |recs|]
            && (forall t :: Tracks(AfterRecords(slots(t), t, recs, fates), t, IndexOf(s', t), IndexOf(s, t)))
            && StoreMatches(offsets', AfterSave(file, offsets', wrote), s')
  {
    var steps := ConsumeSteps(slots, p, recs, fates, |recs|);
    RecordsAreARun(logs, s, p, slots, recs, fates, |recs|);
    assert recs[..|recs|] == recs;
    RunOneMore(logs, s, steps, Persist(p, wrote));
    PersistMatches(Final(logs, s, steps), p, wrote, offsets, file);
  }

  /** The index object holds what the machine's index holds. */
  ghost predicate HoldsIndex(i: Snapshot, m: Index) {
    && Unique(i.buffered) && Unique(i.durable) && Unique(i.visible)
    && ContentsOf(i.buffered) == m.buffered && ContentsOf(i.durable) == m.durable && ContentsOf(i.visible) == m.visible
  }

  /** Committing an index object is the machine's Commit step. */
  lemma CommitIsStep(logs: seq<seq<Record>>, s: System, t: string, i: Snapshot, outcome: CommitOutcome)
    requires HoldsIndex(i, IndexOf(s, t))
    ensures HoldsIndex(AfterCommit(i, outcome), IndexOf(Next(logs, s, Commit(t, outcome)), t))
  {
  }

  ghost predicate AllCommitted(ts: set<string>, outcomes: string -> CommitOutcome) {
    forall t :: t in ts ==> outcomes(t).Committed?
  }

  lemma OneMoreCommitted(all: set<string>, left: set<string>, t: string, outcomes: string -> CommitOutcome)
    requires t in left && left <= all
    ensures AllCommitted(all - (left - {t}), outcomes) == (AllCommitted(all - left, outcomes) && outcomes(t).Committed?)
  {
    var more := all - (left - {t});
    assert forall u :: u in more <==> u in all - left || u == t;
    assert t in more;
  }

  class IndexRegistry {
    var defaultIndex: SearchIndex
    var tenants: map<string, SearchIndex>

    ghost function Indexes(): set<SearchIndex>
      reads this
    {
      {defaultIndex} + tenants.Values
    }

    /** Tenant ids are safe names, and each index is its own tenant's: no two share one. */
    ghost predicate Valid()
      reads this, Indexes()
    {
      && defaultIndex.Valid() && defaultIndex.tenantId == ""
      && forall t :: t in tenants ==> ValidTenantId(t) && tenants[t].tenantId == t && tenants[t].Valid()
    }

    ghost predicate Open(t: string)
      reads this
    {
      t == "" || t in tenants
    }

    ghost function IndexFor(t: string): SearchIndex
      requires Open(t)
      reads this
    {
      if t == "" then defaultIndex else tenants[t]
    }

    ghost function SlotOf(t: string): Slot
      requires Valid()
      reads this, Indexes()
    {
      if Open(t) then Opened(ContentsOf(IndexFor(t).buffered)) else Closed
    }

    constructor (index: SearchIndex)
      requires index.Valid() && index.tenantId == ""
      ensures Valid() && defaultIndex == index && tenants == map[]
    {
      defaultIndex, tenants := index, map[];
    }

    /** The default index for "", else the tenant's own, opened on first use; null if its name is unsafe or it fails. */
    method Resolve(tenantId: string, found: Option<seq<Doc>>) returns (index: SearchIndex?)
      requires Valid() && (found.Some? ==> Unique(found.value))
      modifies `tenants
      ensures Valid() && fresh(Indexes() - old(Indexes()))
      ensures index != null <==> Open(tenantId)
      ensures Open(tenantId) <==> old(Open(tenantId)) || (ValidTenantId(tenantId) && found.Some?)
      ensures index != null ==> index == IndexFor(tenantId) && index in Indexes()
      ensures index != null && !old(Open(tenantId)) ==>
                fresh(index) && index.buffered == index.durable == index.visible == found.value
      ensures forall t :: t != tenantId || old(Open(t)) ==> SlotOf(t) == old(SlotOf(t))
    {
      if tenantId == "" {
        return defaultIndex;
      }
      if tenantId in tenants {
        return tenants[tenantId];
      }
      if !ValidTenantId(tenantId) || found.None? {
        return null;
      }
      index := new SearchIndex(tenantId, found.value);
      tenants := tenants[tenantId := index];
    }

    /** An upsert into one tenant's index touches no other. */
    method Put(index: SearchIndex, w: Write, added: bool)
      requires Valid() && Open(w.tenantId) && index == IndexFor(w.tenantId)
      modifies index`buffered
      ensures Valid()
      ensures SlotOf(w.tenantId) == Opened(Upserted(old(SlotOf(w.tenantId)).docs, w, added))
      ensures forall t :: t != w.tenantId ==> SlotOf(t) == old(SlotOf(t))
    {
      var _ := index.Upsert(w.recordId, w.message, added);
    }

    method Route(w: Write, fate: Fate)
      requires Valid() && GoodFate(fate)
      modifies `tenants, Indexes()
      ensures Valid() && fresh(Indexes() - old(Indexes()))
      ensures w.tenantId == "" || ValidTenantId(w.tenantId) ==>
                SlotOf(w.tenantId) == AfterWrite(old(SlotOf(w.tenantId)), w, fate)
      ensures forall t :: t != w.tenantId || !(t == "" || ValidTenantId(t)) ==> SlotOf(t) == old(SlotOf(t))
    {
      var index := Resolve(w.tenantId, fate.found);
      if index != null {
        Put(index, w, fate.added);
      }
    }

    /** One record into the index its tenant header names, or nowhere. */
    method ConsumeRecord(rec: Record, fate: Fate)
      requires Valid() && GoodFate(fate)
      modifies `tenants, Indexes()
      ensures Valid() && fresh(Indexes() - old(Indexes()))
      ensures forall t :: SlotOf(t) == AfterRecord(old(SlotOf(t)), t, rec, fate)
    {
      if !rec.Parsed? || rec.recordId == "" {
        return;
      }
      if rec.tenantId != "" && !fate.admitted {
        return;
      }
      Route(Write(rec.tenantId, rec.recordId, rec.message), fate);
    }

    ghost function NowOf(t: string): Snapshot
      requires Valid() && Open(t)
      reads this, Indexes()
    {
      IndexFor(t).Now()
    }

    method CommitOne(t: string, outcome: CommitOutcome) returns (ok: bool)
      requires Valid() && Open(t)
      modifies IndexFor(t)`durable, IndexFor(t)`visible
      ensures Valid() && ok == outcome.Committed?
      ensures NowOf(t) == AfterCommit(old(NowOf(t)), outcome)
      ensures forall u :: Open(u) && u != t ==> NowOf(u) == old(NowOf(u))
    {
      var index := if t == "" then defaultIndex else tenants[t];
      ok := index.Commit(outcome);
    }

    /**
     Tries every open index, whatever happened to the others, and succeeds only
     if all of them did; then every index is searchable exactly as buffered.
     */
    method CommitAll(outcomes: string -> CommitOutcome) returns (ok: bool)
      requires Valid()
      modifies Indexes()
      ensures Valid()
      ensures forall t :: Open(t) ==> NowOf(t) == AfterCommit(old(NowOf(t)), outcomes(t))
      ensures ok == AllCommitted(tenants.Keys + {""}, outcomes)
      ensures ok ==> forall t :: Open(t) ==> NowOf(t).visible == NowOf(t).durable == NowOf(t).buffered
    {
      ok := CommitOne("", outcomes(""));
      var tenantsOk := CommitTenants(outcomes);
      ok := ok && tenantsOk;
    }

    method CommitTenants(outcomes: string -> CommitOutcome) returns (ok: bool)
      requires Valid()
      modifies tenants.Values
      ensures Valid()
      ensures forall t :: Open(t) ==>
                NowOf(t) == if t == "" then old(NowOf(t)) else AfterCommit(old(NowOf(t)), outcomes(t))
      ensures ok == AllCommitted(tenants.Keys, outcomes)
    {
      ok := true;
      var left := tenants.Keys;
      assert tenants.Keys - left == {};
      while left != {}
        invariant tenants == old(tenants) && defaultIndex == old(defaultIndex)
        invariant left <= tenants.Keys && Valid()
        invariant forall t :: Open(t) ==>
                    NowOf(t) == if t == "" || t in left then old(NowOf(t)) else AfterCommit(old(NowOf(t)), outcomes(t))
        invariant ok == AllCommitted(tenants.Keys - left, outcomes)
        decreases left
      {
        var t :| t in left;
        var committed := CommitOne(t, outcomes(t));
        ok := ok && committed;
        OneMoreCommitted(tenants.Keys, left, t, outcomes);
        left := left - {t};
      }
    }
  }

  /** The consumers' own record of how far each partition was read, in memory and in a file. */
  class OffsetStore {
    var offsets: map<nat, nat>
    var file: OffsetFile

    constructor (file: OffsetFile, offsets: map<nat, nat>)
      ensures this.file == file && this.offsets == offsets
    {
      this.file, this.offsets := file, offsets;
    }

    method Set(partition: nat, offset: nat)
      modifies `offsets
      ensures offsets == old(offsets)[partition := offset]
      ensures forall p :: Get(offsets, p) == if p == partition then offset else old(Get(offsets, p))
    {
      offsets := offsets[partition := offset];
    }

    method Persist(wrote: WriteOutcome)
      modifies `file
      ensures file == AfterSave(old(file), offsets, wrote)
    {
      match wrote
      case WroteAll => file := Whole(offsets);
      case WroteNothing =>
      case WrotePart => file := Torn;
    }
  }

  /** Reads the file, starts from nothing without one, and refuses one that does not parse. */
  method Load(found: OffsetFile) returns (store: OffsetStore?)
    ensures store == null <==> found.Torn?
    ensures store != null ==> fresh(store) && store.file == found
    ensures store != null ==> store.offsets == SavedIn(found)
  {
    match found
    case Missing => store := new OffsetStore(found, map[]);
    case Whole(offsets) => store := new OffsetStore(found, offsets);
    case Torn => store := null;
  }

  /** One fetched batch: every record in order, then the offset after the last one. */
  method ConsumeBatch(registry: IndexRegistry, store: OffsetStore, partition: nat, start: nat, recs: seq<Record>,
                      fates: seq<Fate>, wrote: WriteOutcome) returns (offset: nat)
    requires registry.Valid() && |fates| == |recs| && GoodFates(fates)
    modifies registry`tenants, registry.Indexes(), store
    ensures registry.Valid() && offset == start + |recs|
    ensures forall t :: registry.SlotOf(t) == AfterRecords(old(registry.SlotOf(t)), t, recs, fates)
    ensures store.offsets == if recs != [] then old(store.offsets)[partition := offset] else old(store.offsets)
    ensures store.file == if recs != [] then AfterSave(old(store.file), store.offsets, wrote) else old(store.file)
  {
    offset := start;
    if recs == [] {
      return;
    }
    for i := 0 to |recs|
      invariant registry.Valid() && fresh(registry.Indexes() - old(registry.Indexes()))
      invariant offset == start + i
      invariant forall t :: registry.SlotOf(t) == AfterRecords(old(registry.SlotOf(t)), t, recs[..i], fates)
      invariant store.offsets == old(store.offsets) && store.file == old(store.file)
    {
      offset := offset + 1;
      assert recs[..i + 1][..i] == recs[..i];
      registry.ConsumeRecord(recs[i], fates[i]);
    }
    assert recs[..|recs|] == recs;
    store.Set(partition, offset);
    store.Persist(wrote);
  }
}
