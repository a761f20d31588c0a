/** The remote KV service: its catalog in memory, the writes it has in flight, and what the backend
    acknowledged. */
module Writeback {
  import opened Wrappers
  import opened PrefixView
  import opened RadixCache
  import opened CatalogView
  import opened Catalog
  import opened Publication

  /** What a lookup says about how much is published. */
  lemma LookupCounts(c: Contents, keys: Path, pages: seq<Descriptor>)
    requires Closed(c) && IsLookup(c, keys, pages)
    ensures |pages| == PublishedCount(c, keys)
  {
    PublishedPrefixes(c, keys);
    if |pages| < |keys| {
      RegisteredUpTo(c, keys, pages, |pages| + 1);
    }
    if pages != [] {
      RegisteredUpTo(c, keys, pages, |pages|);
    }
  }

  /** Page `i` has to be exported and written: it is neither published nor in flight. */
  ghost predicate Required(m: Service, pages: seq<Descriptor>, from: nat, i: nat)
    requires i < |pages|
  {
    from <= i && pages[i].objectKey !in m.inflight
  }

  class RemoteKVRestoreService {
    const catalog: RemotePrefixCatalog
    const persistent: Option<Option<Identity>>
    var durable: set<string>
    var puts: seq<PagePut>
    var inflightWrites: map<string, nat>
    var pending: seq<Publication.Writeback>
    var saves: seq<Save>
    var settled: nat
    var stored: Option<Snapshot>
    var skipped: bool
    ghost var late: Late

    ghost function State(): Service
      reads this, catalog`descriptors, catalog`identity, catalog.index`view
    {
      Service(persistent, catalog.Content(), catalog.identity, durable, puts, inflightWrites, pending, saves, settled,
        stored, skipped, late)
    }

    ghost predicate Valid()
      reads this, catalog, catalog.index, catalog.index.nodes
    {
      catalog.Valid() && State().Inv()
    }

    /** `_load_persistent_catalog` runs as the service starts; `readable` says whether the catalog
        object could be fetched. One of another identity is not loaded. */
    constructor (persistent: Option<Option<Identity>>, durable: set<string>, stored: Option<Snapshot>, readable: bool,
        ghost late: Late)
      requires (stored.Some? ==> SnapshotSafe(stored.value, durable)) && late.Safe(durable)
      ensures Valid() && fresh(catalog) && fresh(catalog.index) && fresh(catalog.index.nodes)
      ensures State() == Started(persistent, durable, stored,
        persistent.Some? && readable
          && (stored.Some? && persistent.value.Some? ==> persistent.value.value == stored.value.identity), late)
    {
      hide Service.Inv, RemotePrefixCatalog.Valid, RemotePrefixCatalog.Content, RadixPrefixCache.Valid, Reloaded,
        SnapshotSafe;
      catalog := new RemotePrefixCatalog();
      this.persistent, this.durable, this.stored := persistent, durable, stored;
      puts, inflightWrites, pending, saves, settled := [], map[], [], [], 0;
      skipped, this.late := stored.Some?, late;
      new;
      if persistent.Some? && readable {
        LoadPersistentCatalog();
      }
      StartedInv(persistent, durable, stored,
        persistent.Some? && readable
          && (stored.Some? && persistent.value.Some? ==> persistent.value.value == stored.value.identity), late);
    }

    method LoadPersistentCatalog()
      requires catalog.Valid() && catalog.Content() == map[] && catalog.identity == None && persistent.Some?
      requires stored.Some? ==> SnapshotSafe(stored.value, durable)
      modifies `skipped, catalog, catalog.index, catalog.index.nodes
      ensures catalog.Valid() && fresh(catalog.index.nodes - old(catalog.index.nodes))
      ensures if stored.Some? && (persistent.value.Some? ==> persistent.value.value == stored.value.identity)
        then catalog.Content() == Reloaded(stored) && catalog.identity == Some(stored.value.identity) && !skipped
        else catalog.Content() == map[] && catalog.identity == None && skipped == old(skipped)
    {
      hide *;
      if stored.Some? && (persistent.value.Some? ==> persistent.value.value == stored.value.identity) {
        SafeMergeable(stored.value, durable);
        var merged := catalog.MergeSnapshot(stored.value);
        skipped := false;
      }
    }

    // ---------- planning ----------

    /** How many pages of `keys` are published. */
    method Published(keys: Path) returns (n: nat)
      requires Valid()
      modifies catalog.index`clock, catalog.index.nodes`lastAccess
      ensures Valid() && State() == old(State()) && n == PublishedCount(State().content, keys)
    {
      var pages := catalog.Match(keys);
      LookupCounts(catalog.Content(), keys, pages);
      n := |pages|;
    }

    /** The pages that must be exported before a batch can be submitted. */
    method PagesRequiringWrite(keys: Path, pages: seq<Descriptor>) returns (required: Option<seq<nat>>)
      requires Valid()
      modifies `inflightWrites, catalog.index`clock, catalog.index.nodes`lastAccess
      ensures Valid()
      ensures required.None? <==> keys == [] || |keys| != |pages|
      ensures State() == if required.None? then old(State())
        else Cleaned(old(State()), pages, PublishedCount(old(State()).content, keys))
      ensures required.Some? ==> forall i: nat :: i in required.value <==>
        i < |pages| && Required(State(), pages, PublishedCount(State().content, keys), i)
    {
      hide Service.Inv, RemotePrefixCatalog.Valid, RemotePrefixCatalog.Content, RadixPrefixCache.Valid, PublishedCount,
        CleanedUpTo, Cleaned, KeysOf, Service.InflightOk;
      if keys == [] || |keys| != |pages| {
        return None;
      }
      var from := Published(keys);
      ghost var before := State();
      CleanedInv(before, pages, from);
      InflightIsOk(before);
      var found := RequiredFrom(pages, from);
      CleanedAll(before, pages, from);
      return Some(found);
    }

    method RequiredFrom(pages: seq<Descriptor>, from: nat) returns (found: seq<nat>)
      requires from <= |pages| && State().InflightOk()
      modifies `inflightWrites
      ensures inflightWrites == CleanedUpTo(old(State()), pages, from, |pages|)
      ensures forall j: nat :: j in found <==> from <= j < |pages| && pages[j].objectKey !in inflightWrites
    {
      hide CleanedUpTo, KeysOf;
      ghost var before := State();
      found := [];
      CleanedNone(before, pages, from);
      assert inflightWrites == CleanedUpTo(before, pages, from, from);
      var i := from;
      while i < |pages|
        invariant from <= i <= |pages|
        invariant inflightWrites == CleanedUpTo(before, pages, from, i)
        invariant forall j: nat :: j in found <==> from <= j < i && pages[j].objectKey !in inflightWrites
      {
        var key := pages[i].objectKey;
        CleanedMore(before, pages, from, i);
        if key in inflightWrites && puts[inflightWrites[key]].status.Failed? {
          inflightWrites := inflightWrites - {key};
        }
        if key !in inflightWrites {
          found := found + [i];
        }
        i := i + 1;
      }
    }

    // ---------- batches ----------

    /** Submit the unpublished pages of a prefix. Everything is checked before anything is written;
        a page in flight is not written again. */
    method SubmitWriteback(keys: Path, pages: seq<Descriptor>, exported: set<nat>) returns (outcome: SubmitOutcome)
      requires Valid()
      modifies `puts, `inflightWrites, `pending, catalog.index`clock, catalog.index.nodes`lastAccess
      ensures Valid() && (State(), outcome) == Submits(old(State()), keys, pages, exported)
    {
      hide Service.Inv, RemotePrefixCatalog.Valid, RemotePrefixCatalog.Content, RadixPrefixCache.Valid, PublishedCount,
        Planned;
      SubmitsInv(State(), keys, pages, exported);
      if keys == [] || |keys| != |pages| {
        return BadVectors;
      }
      var from := Published(keys);
      var complete := AllExported(pages, from, exported);
      if !complete {
        return ExportMissing;
      }
      if from == |pages| {
        return NothingToWrite;
      }
      var futures := StartPuts(pages, from);
      var batch := Publication.Writeback(keys, pages, pages[from..], futures);
      pending := pending + [batch];
      return Submitted(batch);
    }

    method AllExported(pages: seq<Descriptor>, from: nat, exported: set<nat>) returns (all: bool)
      requires from <= |pages|
      ensures all <==> !MissingExport(State(), pages, from, exported)
    {
      var i := from;
      while i < |pages|
        invariant from <= i <= |pages|
        invariant forall j | from <= j < i :: pages[j].objectKey in inflightWrites || j in exported
      {
        if pages[i].objectKey !in inflightWrites && i !in exported {
          return false;
        }
        i := i + 1;
      }
      return true;
    }

    /** `write_plan` holds the futures found before any PUT of this batch starts. */
    method StartPuts(pages: seq<Descriptor>, from: nat) returns (futures: seq<nat>)
      requires from <= |pages|
      modifies `puts, `inflightWrites
      ensures (State(), futures) == Planned(old(State()), pages, from, |pages|)
    {
      var plan := inflightWrites;
      ghost var before := State();
      futures := [];
      var i := from;
      while i < |pages|
        invariant from <= i <= |pages|
        invariant (State(), futures) == Planned(before, pages, from, i)
      {
        var key := pages[i].objectKey;
        if key in plan {
          futures := futures + [plan[key]];
        } else {
          var future := |puts|;
          puts := puts + [PagePut(key, Pending)];
          inflightWrites := inflightWrites[key := future];
          futures := futures + [future];
        }
        i := i + 1;
      }
    }

    /** The PUTs of a batch are no longer in flight. */
    method PopInflight(batch: Publication.Writeback)
      requires |batch.writePages| == |batch.futures|
      modifies `inflightWrites
      ensures inflightWrites == Popped(old(inflightWrites), batch)
    {
      ghost var before := inflightWrites;
      var i := 0;
      while i < |batch.futures|
        invariant 0 <= i <= |batch.futures|
        invariant inflightWrites == map k | k in before
          && !(exists j | 0 <= j < i :: batch.writePages[j].objectKey == k && batch.futures[j] == before[k]) ::
          before[k]
      {
        var key := batch.writePages[i].objectKey;
        if key in inflightWrites && inflightWrites[key] == batch.futures[i] {
          inflightWrites := inflightWrites - {key};
        }
        i := i + 1;
      }
    }

    /** `complete_writeback`, up to the point where a failed PUT, the end of the waiting time or the
        catalog's refusal raises; the answers that came while it waited are in `puts`. */
    method CompleteWriteback(batch: Publication.Writeback) returns (raised: bool)
      requires Valid() && State().WritebackOk(batch)
      modifies `inflightWrites, `saves, `skipped, catalog, catalog.index, catalog.index.nodes
      ensures catalog.Valid() && fresh(catalog.index.nodes - old(catalog.index.nodes))
      ensures raised <==>
        !(BatchWritten(old(State()), batch) && Checked(old(State()).identity, batch.blockKeys, batch.pages) == Done)
      ensures if raised then State() == old(State()) else
        && Registers(old(State()), State().(inflight := old(inflightWrites)), batch.blockKeys, batch.pages)
        && inflightWrites == Popped(old(inflightWrites), batch)
    {
      hide Service.Inv, RemotePrefixCatalog.Valid, RemotePrefixCatalog.Content, RadixPrefixCache.Valid, Registered,
        Checked, SaveScheduled, Popped;
      var i := 0;
      while i < |batch.futures|
        invariant 0 <= i <= |batch.futures|
        invariant forall j | 0 <= j < i :: puts[batch.futures[j]].status.Succeeded?
      {
        if !puts[batch.futures[i]].status.Succeeded? {
          return true;
        }
        i := i + 1;
      }
      assert BatchWritten(State(), batch);
      var outcome := RegisterAndSave(batch.blockKeys, batch.pages);
      if outcome != Done {
        return true;
      }
      PopInflight(batch);
      return false;
    }

    /** What the engine does with a batch: once its writes have returned, or when it waits for them as
        it shuts down. */
    method ProcessWriteback(j: nat)
      requires Valid() && j < |pending|
      modifies `inflightWrites, `saves, `skipped, `pending, catalog, catalog.index, catalog.index.nodes
      ensures Valid() && fresh(catalog.index.nodes - old(catalog.index.nodes))
      ensures BatchEnds(old(State()), State(), j)
    {
      hide Service.Inv, RemotePrefixCatalog.Valid, RemotePrefixCatalog.Content, RadixPrefixCache.Valid, Registers,
        Popped, BatchWritten, BatchEnds, Checked, Service.WritebackOk;
      ghost var before := State();
      var batch := pending[j];
      PendingOk(before, j);
      BatchShape(before, batch);
      var raised := CompleteWriteback(batch);
      if raised {
        PopInflight(batch);
      }
      pending := pending[..j] + pending[j+1..];
      BatchLeft(before, State(), j, raised);
      BatchEndsInv(before, State(), j);
    }

    // ---------- the catalog ----------

    /** `_schedule_catalog_save`: a catalog that cannot be saved is left unsaved. */
    method ScheduleCatalogSave()
      requires catalog.Valid()
      modifies `saves, `skipped
      ensures SaveScheduled(old(State()), State())
    {
      hide RadixPrefixCache.Valid, RemotePrefixCatalog.Valid, IsSnapshot, Mergeable, Writable;
      skipped := true;
      if persistent.None? {
        return;
      }
      var outcome := catalog.TakeSnapshot();
      if outcome.Taken? && (persistent.value.Some? ==> persistent.value.value == outcome.snapshot.identity) {
        saves := saves + [Save(outcome.snapshot, Pending)];
        skipped := false;
      }
    }

    method RegisterAndSave(keys: Path, pages: seq<Descriptor>) returns (outcome: RegisterOutcome)
      requires catalog.Valid()
      modifies `saves, `skipped, catalog, catalog.index, catalog.index.nodes
      ensures catalog.Valid() && fresh(catalog.index.nodes - old(catalog.index.nodes))
      ensures outcome == Checked(old(State()).identity, keys, pages) && Registers(old(State()), State(), keys, pages)
    {
      hide RadixPrefixCache.Valid, RemotePrefixCatalog.Valid, RemotePrefixCatalog.Content, Registered, SaveScheduled;
      outcome := catalog.Register(keys, pages);
      if outcome == Done {
        ScheduleCatalogSave();
      }
    }

    /** A prefix whose pages are said to be in the store already: if they are, the service stays
        consistent. */
    method RegisterExistingPrefix(keys: Path, pages: seq<Descriptor>) returns (outcome: RegisterOutcome)
      requires Valid()
      modifies `saves, `skipped, catalog, catalog.index, catalog.index.nodes
      ensures (forall i | 0 <= i < |pages| :: pages[i].objectKey in durable) ==> Valid()
      ensures catalog.Valid() && fresh(catalog.index.nodes - old(catalog.index.nodes))
      ensures outcome == Checked(old(State()).identity, keys, pages) && Registers(old(State()), State(), keys, pages)
    {
      hide Service.Inv, RadixPrefixCache.Valid, RemotePrefixCatalog.Valid, RemotePrefixCatalog.Content, Registered,
        SaveScheduled;
      ghost var before := State();
      outcome := RegisterAndSave(keys, pages);
      if outcome == Done && forall i | 0 <= i < |pages| :: pages[i].objectKey in durable {
        RegistersInv(before, State(), keys, pages);
      }
    }

    /** `publish_prefix` up to the point where it waits; `first` is the future of the first page. */
    method BeginPublish(keys: Path, pages: seq<Descriptor>) returns (first: Option<nat>)
      requires Valid()
      modifies `puts
      ensures Valid()
      ensures first == if keys == [] || |keys| != |pages| then None else Some(|old(puts)|)
      ensures State() == if first.None? then old(State()) else PublishStarts(old(State()), pages)
      ensures first.Some? ==> Waited(State(), keys, pages, first.value)
    {
      hide Service.Inv, RadixPrefixCache.Valid, RemotePrefixCatalog.Valid, RemotePrefixCatalog.Content;
      if keys == [] || |keys| != |pages| {
        return None;
      }
      PublishStartsInv(State(), pages);
      first := Some(|puts|);
      puts := puts + PutsOf(pages);
    }

    /** The rest of it: publish the prefix if every answer is a success. */
    method EndPublish(keys: Path, pages: seq<Descriptor>, first: nat) returns (outcome: Option<RegisterOutcome>)
      requires Valid() && Waited(State(), keys, pages, first)
      modifies `saves, `skipped, catalog, catalog.index, catalog.index.nodes
      ensures Valid() && fresh(catalog.index.nodes - old(catalog.index.nodes))
      ensures PublishEnds(old(State()), State(), keys, pages, first)
      ensures outcome.Some? <==> AllSucceeded(puts[first..first + |pages|])
    {
      hide Service.Inv, RadixPrefixCache.Valid, RemotePrefixCatalog.Valid, RemotePrefixCatalog.Content, Registers;
      ghost var before := State();
      if AllSucceeded(puts[first..first + |pages|]) {
        var registered := RegisterAndSave(keys, pages);
        outcome := Some(registered);
      } else {
        outcome := None;
      }
      PublishEndsInv(before, State(), keys, pages, first);
    }

    // ---------- restoring ----------

    /** `plan_restore`, where `keys` are the full pages of the request but its last page; `restore` is
        the planner's choice. A candidate has more pages than are cached, and leaves at least one. */
    method PlanRestore(keys: Path, numBlocks: nat, localCachedBlocks: nat, restore: bool)
        returns (candidate: Option<seq<Descriptor>>)
      requires Valid() && |keys| == if numBlocks > 0 then numBlocks - 1 else 0
      modifies catalog.index`clock, catalog.index.nodes`lastAccess
      ensures Valid() && State() == old(State())
      ensures candidate.Some? <==> restore && localCachedBlocks < PublishedCount(State().content, keys)
      ensures candidate.Some? ==>
        localCachedBlocks < |candidate.value| < numBlocks && IsLookup(State().content, keys, candidate.value)
    {
      hide Service.Inv, RadixPrefixCache.Valid, PublishedCount;
      var pages := catalog.Match(keys);
      LookupCounts(catalog.Content(), keys, pages);
      if |pages| <= localCachedBlocks || !restore {
        return None;
      }
      return Some(pages);
    }
  }

  lemma PendingOk(m: Service, j: nat)
    requires m.Inv() && j < |m.pending|
    ensures m.WritebackOk(m.pending[j])
  {
  }

  lemma BatchShape(m: Service, w: Publication.Writeback)
    requires m.WritebackOk(w)
    ensures |w.writePages| == |w.futures|
  {
  }

  /** Popping the batch's PUTs and leaving the list touch nothing that registration reads. */
  lemma BatchLeft(m: Service, n: Service, j: nat, raised: bool)
    requires j < |m.pending| && m.WritebackOk(m.pending[j])
    requires var w := m.pending[j];
      && (raised <==> !(BatchWritten(m, w) && Checked(m.identity, w.blockKeys, w.pages) == Done))
      && n.inflight == Popped(m.inflight, w) && n.pending == m.pending[..j] + m.pending[j+1..]
      && if raised then n == m.(inflight := n.inflight, pending := n.pending)
         else Registers(m, n.(inflight := m.inflight, pending := m.pending), w.blockKeys, w.pages)
    ensures BatchEnds(m, n, j)
  {
    hide Checked, Popped, Registered, IsSnapshotOf, Writable;
  }

  lemma InflightIsOk(m: Service)
    requires m.Inv()
    ensures m.InflightOk()
  {
  }

  lemma CleanedNone(m: Service, pages: seq<Descriptor>, from: nat)
    requires m.InflightOk() && from <= |pages|
    ensures CleanedUpTo(m, pages, from, from) == m.inflight
  {
    assert pages[from..from] == [];
  }

  /** Forgetting the failed PUT of one more page does not touch those of pages before it. */
  lemma CleanedMore(m: Service, pages: seq<Descriptor>, from: nat, i: nat)
    requires m.InflightOk() && from <= i < |pages|
    ensures var (now, next, key) :=
      (CleanedUpTo(m, pages, from, i), CleanedUpTo(m, pages, from, i + 1), pages[i].objectKey);
      && next == (if key in now && m.puts[now[key]].status.Failed? then now - {key} else now)
      && (forall j | from <= j < i :: pages[j].objectKey in next <==> pages[j].objectKey in now)
      && forall k | k in now :: k in m.inflight && now[k] == m.inflight[k]
  {
    assert pages[from..i+1] == pages[from..i] + [pages[i]];
    assert KeysOf(pages[from..i+1]) == KeysOf(pages[from..i]) + {pages[i].objectKey};
    forall j | from <= j < i
      ensures pages[j].objectKey in KeysOf(pages[from..i])
    {
      assert pages[j] == pages[from..i][j-from];
    }
  }

  lemma CleanedAll(m: Service, pages: seq<Descriptor>, from: nat)
    requires m.InflightOk() && from <= |pages|
    ensures Cleaned(m, pages, from) == m.(inflight := CleanedUpTo(m, pages, from, |pages|))
  {
    assert pages[from..|pages|] == pages[from..];
  }

  ghost function CleanedUpTo(m: Service, pages: seq<Descriptor>, from: nat, upto: nat): map<string, nat>
    requires m.InflightOk() && from <= upto <= |pages|
  {
    map k | k in m.inflight && !(m.puts[m.inflight[k]].status.Failed? && k in KeysOf(pages[from..upto])) ::
      m.inflight[k]
  }

  lemma SafeMergeable(s: Snapshot, durable: set<string>)
    requires SnapshotSafe(s, durable)
    ensures Mergeable(s.identity, s.prefixes) && WellShaped(s.prefixes)
      && Merged(map[], s.prefixes) == Reloaded(Some(s))
  {
    SnapshotMergeable(Reloaded(Some(s)), s.identity, s.prefixes);
  }
}
