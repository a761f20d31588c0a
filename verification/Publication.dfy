/** Write-back publication, as a state machine: page PUTs and catalog saves run in the background
    and may fail, batches share PUTs, and the process may restart at any moment.

    What must never happen is that the catalog, in memory or in the store, refers to a page that was
    not written. */
module Publication {
  import opened Wrappers
  import opened PrefixView
  import opened CatalogView
  import opened Catalog

  datatype Status = Pending | Succeeded | Failed

  // A page PUT; its index in `puts` stands for its future.
  datatype PagePut = PagePut(objectKey: string, status: Status)

  // A PUT of the catalog object.
  datatype Save = Save(snapshot: Snapshot, status: Status)

  datatype Writeback = Writeback(blockKeys: Path, pages: seq<Descriptor>, writePages: seq<Descriptor>,
    futures: seq<nat>)

  // What processes that have ended left in flight: it may still reach the store.
  datatype Late = Late(
    keys: set<string>,                      // of page PUTs
    snapshots: set<Snapshot>,               // of catalog PUTs
    overwrote: bool)                        // one of these came after what this process loaded or saved last
  {
    ghost predicate Safe(durable: set<string>) {
      forall s | s in snapshots :: SnapshotSafe(s, durable)
    }
  }

  datatype Service = Service(
    persistent: Option<Option<Identity>>,   // the catalog is saved, if an identity is given only under that one
    content: Contents,
    identity: Option<Identity>,
    durable: set<string>,                   // objects that were written, ever
    puts: seq<PagePut>,
    inflight: map<string, nat>,
    pending: seq<Writeback>,
    saves: seq<Save>,
    settled: nat,                           // how many saves have returned
    stored: Option<Snapshot>,               // the catalog object in the store
    skipped: bool,                          // the latest content was not handed over for saving
    late: Late)
  {
    // ---------- the invariant ----------

    ghost predicate InflightOk() {
      forall k | k in inflight :: inflight[k] < |puts| && puts[inflight[k]].objectKey == k
    }

    ghost predicate PutOk(f: nat)
      requires f < |puts|
    {
      puts[f].status.Succeeded? ==> puts[f].objectKey in durable
    }

    /** Every page of a batch is published or has a PUT of its own key among the batch's futures. */
    ghost predicate WritebackOk(w: Writeback) {
      && 0 < |w.blockKeys| == |w.pages| && 0 < |w.writePages| == |w.futures|
      && (forall i | 0 <= i < |w.futures| ::
           w.futures[i] < |puts| && puts[w.futures[i]].objectKey == w.writePages[i].objectKey)
      && (forall n | 0 < n <= |w.blockKeys| :: w.blockKeys[..n] in content || w.pages[n-1] in w.writePages)
    }

    ghost predicate SavesOk() {
      && settled <= |saves|
      && (stored.Some? ==> SnapshotSafe(stored.value, durable)) && late.Safe(durable)
      && (forall i: nat {:trigger SaveOk(i)} | i < |saves| :: SaveOk(i))
    }

    ghost predicate SaveOk(i: nat)
      requires i < |saves|
    {
      SnapshotSafe(saves[i].snapshot, durable) && (saves[i].status.Pending? <==> settled <= i)
    }

    /** The last save, if it succeeded, is what the store has. */
    ghost predicate LastStored() {
      settled == |saves| > 0 && saves[|saves|-1].status.Succeeded? && !late.overwrote ==>
        stored == Some(saves[|saves|-1].snapshot)
    }

    /** What is being saved is what is in memory. */
    ghost predicate UpToDate() {
      && LastStored()
      && (!skipped && saves != [] ==> IsSnapshotOf(saves[|saves|-1].snapshot, content, identity))
      && (!skipped && saves == [] && !late.overwrote ==> content == Reloaded(stored))
    }

    ghost predicate PutsOk() {
      && InflightOk()
      && (forall f: nat {:trigger PutOk(f)} | f < |puts| :: PutOk(f))
      && (forall i {:trigger pending[i]} | 0 <= i < |pending| :: WritebackOk(pending[i]))
    }

    ghost predicate CatalogOk() {
      ContentsOk(content, identity) && ContentDurable(content, durable)
    }

    ghost predicate Inv() {
      CatalogOk() && PutsOk() && SavesOk() && UpToDate()
    }
  }

  ghost predicate ContentDurable(c: Contents, durable: set<string>) {
    forall p | p in c :: c[p].objectKey in durable
  }

  ghost predicate IsSnapshotOf(s: Snapshot, c: Contents, identity: Option<Identity>) {
    identity == Some(s.identity) && IsSnapshot(c, s.prefixes)
  }

  /** The content that a restart reads back from the catalog object. */
  ghost function Reloaded(stored: Option<Snapshot>): Contents {
    if stored.Some? && WellShaped(stored.value.prefixes) then Merged(map[], stored.value.prefixes) else map[]
  }

  /** A catalog object that is the snapshot of some content, all of whose pages were written. */
  ghost predicate SnapshotSafe(s: Snapshot, durable: set<string>) {
    var c := Reloaded(Some(s));
    && ContentsOk(c, Some(s.identity)) && IsSnapshotOf(s, c, Some(s.identity))
    && ContentDurable(c, durable)
  }

  // ---------- steps ----------

  ghost function PublishedCount(c: Contents, keys: Path): (n: nat)
    ensures n <= |keys|
  {
    if keys == [] then 0 else if keys in c then |keys| else PublishedCount(c, keys[..|keys|-1])
  }

  predicate CanReturn(m: Service, f: nat) {
    f < |m.puts| && m.puts[f].status.Pending?
  }

  /** A page PUT returns. */
  ghost function PutReturns(m: Service, f: nat, ok: bool): Service
    requires CanReturn(m, f)
  {
    var p := m.puts[f];
    m.(puts := m.puts[f := p.(status := if ok then Succeeded else Failed)],
       durable := if ok then m.durable + {p.objectKey} else m.durable)
  }

  /** `pages_requiring_write` forgets PUTs that failed, of pages beyond the published ones. */
  ghost function Cleaned(m: Service, pages: seq<Descriptor>, from: nat): Service
    requires m.InflightOk() && from <= |pages|
  {
    m.(inflight := map k | k in m.inflight && !(m.puts[m.inflight[k]].status.Failed? && k in KeysOf(pages[from..])) ::
      m.inflight[k])
  }

  ghost function KeysOf(pages: seq<Descriptor>): set<string> {
    set d | d in pages :: d.objectKey
  }

  /** The PUTs of pages `from` up to `upto`: those in flight are shared, the others are started. */
  ghost function Planned(m: Service, pages: seq<Descriptor>, from: nat, upto: nat): (r: (Service, seq<nat>))
    requires upto <= |pages|
  {
    if upto <= from then (m, []) else PlannedOne(m.inflight, pages[upto-1].objectKey, Planned(m, pages, from, upto - 1))
  }

  ghost function PlannedOne(inflight: map<string, nat>, k: string, so: (Service, seq<nat>)): (Service, seq<nat>) {
    if k in inflight then (so.0, so.1 + [inflight[k]]) else (PutStarted(so.0, k), so.1 + [|so.0.puts|])
  }

  ghost function PutStarted(m: Service, k: string): Service {
    m.(puts := m.puts + [PagePut(k, Pending)], inflight := m.inflight[k := |m.puts|])
  }

  ghost predicate MissingExport(m: Service, pages: seq<Descriptor>, from: nat, exported: set<nat>) {
    exists i | from <= i < |pages| :: pages[i].objectKey !in m.inflight && i !in exported
  }

  datatype SubmitOutcome = Submitted(batch: Writeback) | NothingToWrite | ExportMissing | BadVectors

  ghost function Submits(m: Service, keys: Path, pages: seq<Descriptor>, exported: set<nat>): (Service, SubmitOutcome) {
    var from := PublishedCount(m.content, keys);
    if keys == [] || |keys| != |pages| then (m, BadVectors)
    else if MissingExport(m, pages, from, exported) then (m, ExportMissing)
    else if from == |keys| then (m, NothingToWrite)
    else
      var (n, fs) := Planned(m, pages, from, |pages|);
      var w := Writeback(keys, pages, pages[from..], fs);
      (n.(pending := n.pending + [w]), Submitted(w))
  }

  /** Hand the catalog over for saving, unless it cannot be saved. */
  ghost predicate SaveScheduled(m: Service, n: Service) {
    && n == m.(saves := n.saves, skipped := n.skipped)
    && if m.persistent.Some? && m.identity.Some? && Writable(m.content)
          && (m.persistent.value.Some? ==> m.persistent.value == m.identity)
       then
         && |n.saves| == |m.saves| + 1 && n.saves[..|m.saves|] == m.saves && n.saves[|m.saves|].status.Pending?
         && IsSnapshotOf(n.saves[|m.saves|].snapshot, m.content, m.identity) && !n.skipped
       else n.saves == m.saves && n.skipped
  }

  /** Register a prefix and save the catalog; nothing happens if the arguments are refused. */
  ghost predicate Registers(m: Service, n: Service, keys: Path, pages: seq<Descriptor>) {
    if Checked(m.identity, keys, pages) != Done then n == m else SaveScheduled(WithPrefix(m, keys, pages), n)
  }

  ghost function WithPrefix(m: Service, keys: Path, pages: seq<Descriptor>): Service
    requires |keys| == |pages|
  {
    m.(content := Registered(m.content, keys, pages),
       identity := if keys == [] then m.identity else Some(pages[0].identity))
  }

  ghost function Popped(inflight: map<string, nat>, w: Writeback): map<string, nat>
    requires |w.writePages| == |w.futures|
  {
    map k | k in inflight
      && !(exists i | 0 <= i < |w.futures| :: w.writePages[i].objectKey == k && w.futures[i] == inflight[k]) ::
      inflight[k]
  }

  ghost predicate BatchWritten(m: Service, w: Writeback)
    requires m.WritebackOk(w)
  {
    forall i | 0 <= i < |w.futures| :: m.puts[w.futures[i]].status.Succeeded?
  }

  ghost function Dropped(m: Service, j: nat): Service
    requires j < |m.pending|
  {
    m.(pending := m.pending[..j] + m.pending[j+1..])
  }

  /** A batch leaves the list: it is published as a whole if all its PUTs have succeeded and the
      catalog accepts it, and not at all otherwise, be it that a PUT failed or that waiting for one
      timed out. Either way its PUTs are no longer in flight. */
  ghost predicate BatchEnds(m: Service, n: Service, j: nat) {
    && j < |m.pending| && m.WritebackOk(m.pending[j])
    && var w := m.pending[j];
       var left := Dropped(m, j).(inflight := Popped(m.inflight, w));
       if BatchWritten(m, w) then Registers(left, n, w.blockKeys, w.pages) else n == left
  }

  /** `publish_prefix` starts a PUT of every page, */
  function PublishStarts(m: Service, pages: seq<Descriptor>): Service {
    m.(puts := m.puts + PutsOf(pages))
  }

  function PutsOf(pages: seq<Descriptor>): seq<PagePut> {
    seq(|pages|, i requires 0 <= i < |pages| => PagePut(pages[i].objectKey, Pending))
  }

  /** and waits for the answers: `first` is the future of the first page. */
  ghost predicate PublishEnds(m: Service, n: Service, keys: Path, pages: seq<Descriptor>, first: nat) {
    && Waited(m, keys, pages, first)
    && if AllSucceeded(m.puts[first..first + |pages|]) then Registers(m, n, keys, pages) else n == m
  }

  predicate AllSucceeded(puts: seq<PagePut>) {
    forall i | 0 <= i < |puts| :: puts[i].status.Succeeded?
  }

  ghost predicate Waited(m: Service, keys: Path, pages: seq<Descriptor>, first: nat) {
    && 0 < |keys| == |pages| && first + |pages| <= |m.puts|
    && forall i | 0 <= i < |pages| :: m.puts[first + i].objectKey == pages[i].objectKey
  }

  /** Saves return in the order they were handed over; one that fails may have taken effect. */
  ghost function SaveReturns(m: Service, ok: bool, applied: bool): Service
    requires m.settled < |m.saves| && (ok ==> applied)
  {
    var s := m.saves[m.settled];
    m.(saves := m.saves[m.settled := s.(status := if ok then Succeeded else Failed)], settled := m.settled + 1,
       stored := if applied then Some(s.snapshot) else m.stored,
       late := if applied then m.late.(overwrote := false) else m.late)
  }

  /** A new process, which reads the catalog object, or fails to. */
  ghost function Started(persistent: Option<Option<Identity>>, durable: set<string>, stored: Option<Snapshot>,
      loaded: bool, late: Late): Service {
    var found := loaded && stored.Some?;
    Service(persistent, if found then Reloaded(stored) else map[], if found then Some(stored.value.identity) else None,
      durable, [], map[], [], [], 0, stored, stored.Some? && !loaded, late)
  }

  /** Only the store survives a restart, and whatever is on its way there. */
  ghost function Restarts(m: Service, persistent: Option<Option<Identity>>, loaded: bool): Service {
    Started(persistent, m.durable, m.stored, loaded, LeftInFlight(m))
  }

  ghost function LeftInFlight(m: Service): Late {
    Late(m.late.keys + (set p | p in m.puts && p.status.Pending? :: p.objectKey),
      m.late.snapshots + (set s | s in m.saves && s.status.Pending? :: s.snapshot), false)
  }

  /** A page PUT of an earlier process takes effect. */
  ghost function LateWrite(m: Service, k: string): Service {
    m.(durable := m.durable + {k})
  }

  /** So does a catalog PUT of an earlier process. */
  ghost function LateSave(m: Service, s: Snapshot): Service {
    m.(stored := Some(s), late := m.late.(snapshots := m.late.snapshots - {s}, overwrote := true))
  }

  // ---------- every step keeps the invariant ----------

  /** What was written stays written. */
  lemma MoreDurable(m: Service, n: Service)
    requires m.CatalogOk() && m.SavesOk() && m.UpToDate() && m.durable <= n.durable
    requires n == m.(durable := n.durable, puts := n.puts, inflight := n.inflight, pending := n.pending)
    ensures n.CatalogOk() && n.SavesOk() && n.UpToDate()
  {
    hide ContentsOk, IsSnapshotOf, Reloaded;
    forall i: nat | i < |n.saves|
      ensures n.SaveOk(i)
    {
      assert m.SaveOk(i);
    }
  }

  lemma PutReturnsInv(m: Service, f: nat, ok: bool)
    requires m.Inv() && CanReturn(m, f)
    ensures PutReturns(m, f, ok).Inv()
  {
    var n := PutReturns(m, f, ok);
    MoreDurable(m, n);
    hide Service.CatalogOk, Service.SavesOk, Service.UpToDate;
    forall g: nat | g < |n.puts|
      ensures n.PutOk(g)
    {
      assert m.PutOk(g);
    }
    forall i | 0 <= i < |n.pending|
      ensures n.WritebackOk(n.pending[i])
    {
      assert m.WritebackOk(m.pending[i]);
    }
  }

  /** Dropping entries of the in-flight table, or batches, matters only to later batches. */
  lemma FewerInflight(m: Service, n: Service)
    requires m.PutsOk() && n == m.(inflight := n.inflight, pending := n.pending)
    requires forall k | k in n.inflight :: k in m.inflight && n.inflight[k] == m.inflight[k]
    requires forall w | w in n.pending :: w in m.pending
    ensures n.PutsOk()
  {
    forall g: nat | g < |n.puts|
      ensures n.PutOk(g)
    {
      assert m.PutOk(g);
    }
    forall i | 0 <= i < |n.pending|
      ensures n.WritebackOk(n.pending[i])
    {
      assert n.pending[i] in m.pending;
      assert m.WritebackOk(n.pending[i]);
    }
  }

  lemma CleanedInv(m: Service, pages: seq<Descriptor>, from: nat)
    requires m.Inv() && from <= |pages|
    ensures Cleaned(m, pages, from).Inv()
  {
    var n := Cleaned(m, pages, from);
    FewerInflight(m, n);
    MoreDurable(m, n);
  }

  lemma PutStartedOk(m: Service, k: string)
    requires m.PutsOk()
    ensures PutStarted(m, k).PutsOk()
  {
    var n := PutStarted(m, k);
    forall g: nat | g < |n.puts|
      ensures n.PutOk(g)
    {
      assert g < |m.puts| ==> m.PutOk(g);
    }
    forall i | 0 <= i < |n.pending|
      ensures n.WritebackOk(n.pending[i])
    {
      assert m.WritebackOk(m.pending[i]);
    }
  }

  /** Each planned page has its PUT, in flight before or started now. */
  ghost predicate PlanOk(m: Service, pages: seq<Descriptor>, from: nat, n: Service, fs: seq<nat>) {
    && n == m.(puts := n.puts, inflight := n.inflight) && m.puts <= n.puts && n.PutsOk()
    && from + |fs| <= |pages|
    && forall i | 0 <= i < |fs| :: fs[i] < |n.puts| && n.puts[fs[i]].objectKey == pages[from + i].objectKey
  }

  lemma NothingPlanned(m: Service, pages: seq<Descriptor>, from: nat)
    requires m.PutsOk() && from <= |pages|
    ensures PlanOk(m, pages, from, m, [])
  {
  }

  lemma {:induction false} PlannedOk(m: Service, pages: seq<Descriptor>, from: nat, upto: nat)
    requires m.PutsOk() && from <= upto <= |pages|
    ensures var (n, fs) := Planned(m, pages, from, upto); PlanOk(m, pages, from, n, fs) && |fs| == upto - from
  {
    hide PlanOk, Service.PutsOk;
    if from == upto {
      NothingPlanned(m, pages, from);
    } else {
      PlannedOk(m, pages, from, upto - 1);
      var (n, fs) := Planned(m, pages, from, upto - 1);
      OneMorePlanned(m, pages, from, n, fs);
    }
  }

  lemma OneMorePlanned(m: Service, pages: seq<Descriptor>, from: nat, n: Service, fs: seq<nat>)
    requires m.PutsOk() && PlanOk(m, pages, from, n, fs) && from + |fs| < |pages|
    ensures var (t, gs) := PlannedOne(m.inflight, pages[from + |fs|].objectKey, (n, fs));
      PlanOk(m, pages, from, t, gs) && |gs| == |fs| + 1
  {
    var k := pages[from + |fs|].objectKey;
    PutStartedOk(n, k);
    assert k in m.inflight ==> m.puts[m.inflight[k]].objectKey == k && n.puts[m.inflight[k]] == m.puts[m.inflight[k]];
    hide Service.WritebackOk, Service.PutOk;
  }

  lemma {:induction false} PublishedPrefixes(c: Contents, keys: Path)
    requires Closed(c)
    ensures forall n | 0 < n <= |keys| :: keys[..n] in c <==> n <= PublishedCount(c, keys)
  {
    if keys != [] {
      if keys in c {
        ClosedUnder(c, keys);
      } else {
        PublishedPrefixes(c, keys[..|keys|-1]);
        forall n | 0 < n <= |keys|
          ensures keys[..n] in c <==> n <= PublishedCount(c, keys)
        {
          if n < |keys| {
            assert keys[..|keys|-1][..n] == keys[..n];
          } else {
            assert keys[..n] == keys;
          }
        }
      }
    }
  }

  lemma SubmitsInv(m: Service, keys: Path, pages: seq<Descriptor>, exported: set<nat>)
    requires m.Inv()
    ensures Submits(m, keys, pages, exported).0.Inv()
  {
    hide Planned, PublishedCount, MissingExport, ContentDurable, SnapshotSafe, Reloaded;
    var from := PublishedCount(m.content, keys);
    var (n, outcome) := Submits(m, keys, pages, exported);
    if outcome.Submitted? {
      PublishedPrefixes(m.content, keys);
      PlannedOk(m, pages, from, |pages|);
      MoreDurable(m, n);
      BatchAdded(Planned(m, pages, from, |pages|).0, keys, pages, from, Planned(m, pages, from, |pages|).1);
    }
  }

  lemma BatchAdded(m: Service, keys: Path, pages: seq<Descriptor>, from: nat, fs: seq<nat>)
    requires m.PutsOk() && from < |keys| == |pages| && |fs| == |pages| - from
    requires forall n | 0 < n <= from :: keys[..n] in m.content
    requires forall i | 0 <= i < |fs| :: fs[i] < |m.puts| && m.puts[fs[i]].objectKey == pages[from + i].objectKey
    ensures m.(pending := m.pending + [Writeback(keys, pages, pages[from..], fs)]).PutsOk()
  {
    var w := Writeback(keys, pages, pages[from..], fs);
    var n := m.(pending := m.pending + [w]);
    assert n.WritebackOk(w) by {
      forall i | from <= i < |pages|
        ensures pages[i] in w.writePages
      {
        assert pages[from..][i - from] == pages[i];
      }
    }
    forall g: nat | g < |n.puts|
      ensures n.PutOk(g)
    {
      assert m.PutOk(g);
    }
    forall i | 0 <= i < |n.pending|
      ensures n.WritebackOk(n.pending[i])
    {
      assert i < |m.pending| ==> m.WritebackOk(m.pending[i]);
    }
  }

  /** A snapshot of a durable content reads back as that content. */
  lemma SnapshotIsSafe(s: Snapshot, c: Contents, identity: Option<Identity>, durable: set<string>)
    requires ContentsOk(c, identity) && ContentDurable(c, durable) && IsSnapshotOf(s, c, identity)
    ensures SnapshotSafe(s, durable) && Reloaded(Some(s)) == c
  {
    SnapshotRoundTrip(c, s.prefixes, s.prefixes);
  }

  lemma SaveScheduledInv(m: Service, n: Service)
    requires m.CatalogOk() && m.PutsOk() && m.SavesOk() && SaveScheduled(m, n)
    requires m.LastStored()
    ensures n.Inv()
  {
    SamePuts(m, n);
    ScheduledUpToDate(m, n);
    ScheduledSaves(m, n);
    hide Service.PutsOk, Service.SavesOk, Service.UpToDate, SaveScheduled;
  }

  lemma ScheduledUpToDate(m: Service, n: Service)
    requires SaveScheduled(m, n) && m.settled <= |m.saves|
    requires m.LastStored()
    ensures n.UpToDate()
  {
    hide IsSnapshotOf, Reloaded, Writable;
  }

  lemma ScheduledSaves(m: Service, n: Service)
    requires SaveScheduled(m, n) && m.SavesOk() && m.CatalogOk()
    ensures n.SavesOk()
  {
    if n.saves != m.saves {
      SnapshotIsSafe(n.saves[|m.saves|].snapshot, m.content, m.identity, m.durable);
    }
    hide ContentsOk, IsSnapshotOf, SnapshotSafe, ContentDurable, Writable, Service.SavesOk;
    SaveAppended(m, n);
  }

  lemma SaveAppended(m: Service, n: Service)
    requires m.SavesOk() && n == m.(saves := n.saves, skipped := n.skipped)
    requires n.saves != m.saves ==>
      |n.saves| == |m.saves| + 1 && n.saves[..|m.saves|] == m.saves && n.saves[|m.saves|].status.Pending?
    requires n.saves != m.saves ==> SnapshotSafe(n.saves[|m.saves|].snapshot, m.durable)
    ensures n.SavesOk()
  {
    hide SnapshotSafe;
    forall i: nat | i < |n.saves|
      ensures n.SaveOk(i)
    {
      if i < |m.saves| {
        assert m.SaveOk(i);
        assert n.saves[i] == n.saves[..|m.saves|][i];
      }
    }
  }

  lemma SamePuts(m: Service, n: Service)
    requires m.PutsOk() && n == m.(saves := n.saves, skipped := n.skipped, settled := n.settled, stored := n.stored,
      late := n.late)
    ensures n.PutsOk()
  {
    forall g: nat | g < |n.puts|
      ensures n.PutOk(g)
    {
      assert m.PutOk(g);
    }
    forall i | 0 <= i < |n.pending|
      ensures n.WritebackOk(n.pending[i])
    {
      assert m.WritebackOk(m.pending[i]);
    }
  }

  /** Pages may be published once they are written: every page of the prefix that is not in the
      catalog yet was. */
  lemma RegistersInv(m: Service, n: Service, keys: Path, pages: seq<Descriptor>)
    requires m.Inv() && Registers(m, n, keys, pages)
    requires |keys| == |pages| && forall l | 0 < l <= |keys| ::
      keys[..l] in m.content || pages[l-1].objectKey in m.durable
    ensures n.Inv()
  {
    hide Service.Inv, Registered, Checked, SaveScheduled, WithPrefix;
    if Checked(m.identity, keys, pages) == Done {
      WithPrefixOk(m, keys, pages);
      SaveScheduledInv(WithPrefix(m, keys, pages), n);
    }
  }

  lemma WithPrefixOk(m: Service, keys: Path, pages: seq<Descriptor>)
    requires m.Inv() && Checked(m.identity, keys, pages) == Done
    requires |keys| == |pages| && forall l | 0 < l <= |keys| ::
      keys[..l] in m.content || pages[l-1].objectKey in m.durable
    ensures var n := WithPrefix(m, keys, pages);
      n.CatalogOk() && n.PutsOk() && n.SavesOk() && n.LastStored()
  {
    var n := WithPrefix(m, keys, pages);
    RegisteredDurable(m, keys, pages);
    RegisteredPuts(m, n, keys, pages);
    MovedSaves(m, n);
    hide Service.PutsOk, Service.SavesOk, Registered, ContentsOk, ContentDurable;
  }

  /** Saves handed over earlier do not depend on what the catalog holds by now. */
  lemma MovedSaves(m: Service, n: Service)
    requires m.SavesOk() && n == m.(content := n.content, identity := n.identity)
    ensures n.SavesOk()
  {
    hide SnapshotSafe;
    forall i: nat | i < |n.saves|
      ensures n.SaveOk(i)
    {
      assert m.SaveOk(i);
    }
  }

  lemma RegisteredDurable(m: Service, keys: Path, pages: seq<Descriptor>)
    requires m.CatalogOk() && Checked(m.identity, keys, pages) == Done
    requires forall l | 0 < l <= |keys| && l <= |pages| :: keys[..l] in m.content || pages[l-1].objectKey in m.durable
    ensures ContentDurable(Registered(m.content, keys, pages), m.durable)
    ensures ContentsOk(Registered(m.content, keys, pages), if keys == [] then m.identity else Some(pages[0].identity))
  {
    var c := Registered(m.content, keys, pages);
    if keys == [] {
      assert c == m.content;
    } else {
      RegisteredOk(m.content, m.identity, keys, pages);
    }
    hide ContentsOk;
    forall p | p in c
      ensures c[p].objectKey in m.durable
    {
      PrefixMember(keys, p);
      if p !in m.content {
        assert keys[..|p|] == p;
      }
    }
  }

  lemma RegisteredPuts(m: Service, n: Service, keys: Path, pages: seq<Descriptor>)
    requires m.PutsOk() && |keys| == |pages|
    requires n == m.(content := Registered(m.content, keys, pages), identity := n.identity)
    ensures n.PutsOk()
  {
    assert forall p | p in m.content :: p in n.content;
    hide Registered;
    forall g: nat | g < |n.puts|
      ensures n.PutOk(g)
    {
      assert m.PutOk(g);
    }
    forall i | 0 <= i < |n.pending|
      ensures n.WritebackOk(n.pending[i])
    {
      assert m.WritebackOk(m.pending[i]);
    }
  }

  lemma BatchEndsInv(m: Service, n: Service, j: nat)
    requires m.Inv() && BatchEnds(m, n, j)
    ensures n.Inv()
  {
    var w := m.pending[j];
    var left := Dropped(m, j).(inflight := Popped(m.inflight, w));
    FewerInflight(m, left);
    MoreDurable(m, left);
    if BatchWritten(m, w) {
      WrittenBatch(m, w);
      hide Service.CatalogOk, Service.PutsOk, Service.SavesOk, Service.UpToDate;
      RegistersInv(left, n, w.blockKeys, w.pages);
    }
  }

  lemma WrittenBatch(m: Service, w: Writeback)
    requires m.PutsOk() && m.WritebackOk(w) && BatchWritten(m, w)
    ensures forall l | 0 < l <= |w.blockKeys| :: w.blockKeys[..l] in m.content || w.pages[l-1].objectKey in m.durable
  {
    forall l | 0 < l <= |w.blockKeys|
      ensures w.blockKeys[..l] in m.content || w.pages[l-1].objectKey in m.durable
    {
      if w.blockKeys[..l] !in m.content {
        var i :| 0 <= i < |w.writePages| && w.writePages[i] == w.pages[l-1];
        assert m.PutOk(w.futures[i]);
      }
    }
  }

  lemma PublishStartsInv(m: Service, pages: seq<Descriptor>)
    requires m.Inv()
    ensures PublishStarts(m, pages).Inv()
  {
    var n := PublishStarts(m, pages);
    MoreDurable(m, n);
    hide Service.CatalogOk, Service.SavesOk, Service.UpToDate;
    forall g: nat | g < |n.puts|
      ensures n.PutOk(g)
    {
      assert g < |m.puts| ==> m.PutOk(g);
    }
    forall i | 0 <= i < |n.pending|
      ensures n.WritebackOk(n.pending[i])
    {
      assert m.WritebackOk(m.pending[i]);
    }
  }

  lemma PublishEndsInv(m: Service, n: Service, keys: Path, pages: seq<Descriptor>, first: nat)
    requires m.Inv() && PublishEnds(m, n, keys, pages, first)
    ensures n.Inv()
  {
    hide Service.CatalogOk, Service.SavesOk, Service.UpToDate, Registers;
    if AllSucceeded(m.puts[first..first + |pages|]) {
      forall i | 0 <= i < |pages|
        ensures pages[i].objectKey in m.durable
      {
        assert m.puts[first..first + |pages|][i] == m.puts[first + i];
        assert m.PutOk(first + i);
      }
      RegistersInv(m, n, keys, pages);
    }
  }

  lemma SaveReturnsInv(m: Service, ok: bool, applied: bool)
    requires m.Inv() && m.settled < |m.saves| && (ok ==> applied)
    ensures SaveReturns(m, ok, applied).Inv()
  {
    var n := SaveReturns(m, ok, applied);
    SamePuts(m, n);
    ReturnedSaves(m, ok, applied);
    ReturnedUpToDate(m, ok, applied);
    hide ContentsOk, ContentDurable, Service.PutsOk, Service.SavesOk, Service.UpToDate;
  }

  lemma ReturnedUpToDate(m: Service, ok: bool, applied: bool)
    requires m.UpToDate() && m.settled < |m.saves| && (ok ==> applied)
    ensures SaveReturns(m, ok, applied).UpToDate()
  {
    hide IsSnapshotOf, Reloaded, SnapshotSafe;
  }

  lemma ReturnedSaves(m: Service, ok: bool, applied: bool)
    requires m.SavesOk() && m.settled < |m.saves| && (ok ==> applied)
    ensures SaveReturns(m, ok, applied).SavesOk()
  {
    var n := SaveReturns(m, ok, applied);
    hide SnapshotSafe;
    assert m.SaveOk(m.settled);
    forall i: nat | i < |n.saves|
      ensures n.SaveOk(i)
    {
      assert m.SaveOk(i);
    }
  }

  lemma RestartsInv(m: Service, persistent: Option<Option<Identity>>, loaded: bool)
    requires m.Inv()
    ensures Restarts(m, persistent, loaded).Inv()
  {
    hide SnapshotSafe, Reloaded;
    LeftIsSafe(m);
    StartedInv(persistent, m.durable, m.stored, loaded, LeftInFlight(m));
  }

  lemma LeftIsSafe(m: Service)
    requires m.SavesOk()
    ensures LeftInFlight(m).Safe(m.durable)
  {
    hide SnapshotSafe;
    forall s | s in m.saves
      ensures SnapshotSafe(s.snapshot, m.durable)
    {
      var i: nat :| i < |m.saves| && m.saves[i] == s;
      assert m.SaveOk(i);
    }
  }

  lemma StartedInv(persistent: Option<Option<Identity>>, durable: set<string>, stored: Option<Snapshot>, loaded: bool,
      late: Late)
    requires (stored.Some? ==> SnapshotSafe(stored.value, durable)) && late.Safe(durable)
    ensures Started(persistent, durable, stored, loaded, late).Inv()
  {
    hide Late.Safe;
  }

  lemma LateWriteInv(m: Service, k: string)
    requires m.Inv()
    ensures LateWrite(m, k).Inv()
  {
    var n := LateWrite(m, k);
    MoreDurable(m, n);
    hide Service.CatalogOk, Service.SavesOk, Service.UpToDate;
    forall g: nat | g < |n.puts|
      ensures n.PutOk(g)
    {
      assert m.PutOk(g);
    }
    forall i | 0 <= i < |n.pending|
      ensures n.WritebackOk(n.pending[i])
    {
      assert m.WritebackOk(m.pending[i]);
    }
  }

  lemma LateSaveInv(m: Service, s: Snapshot)
    requires m.Inv() && s in m.late.snapshots
    ensures LateSave(m, s).Inv()
  {
    hide Service.CatalogOk, Service.PutsOk, Service.SavesOk, Service.UpToDate;
    SamePuts(m, LateSave(m, s));
    LateSaveStored(m, s);
    LateSaveRest(m, s);
  }

  lemma LateSaveRest(m: Service, s: Snapshot)
    requires m.CatalogOk() && m.UpToDate()
    ensures LateSave(m, s).CatalogOk() && LateSave(m, s).UpToDate()
  {
    hide ContentsOk, ContentDurable, IsSnapshotOf, Reloaded;
  }

  lemma LateSaveStored(m: Service, s: Snapshot)
    requires m.SavesOk() && s in m.late.snapshots
    ensures LateSave(m, s).SavesOk()
  {
    hide SnapshotSafe;
    var n := LateSave(m, s);
    forall i: nat | i < |n.saves|
      ensures n.SaveOk(i)
    {
      assert m.SaveOk(i);
    }
  }

  // ---------- every run ----------

  datatype Action =
    | PutReturned(f: nat, ok: bool)
    | WritesPlanned(keys: Path, pages: seq<Descriptor>)
    | BatchSubmitted(keys: Path, pages: seq<Descriptor>, exported: set<nat>)
    | BatchEnded(j: nat)
    | ExistingRegistered(keys: Path, pages: seq<Descriptor>)
    | PublishStarted(pages: seq<Descriptor>)
    | PublishEnded(keys: Path, pages: seq<Descriptor>, first: nat)
    | SaveReturned(ok: bool, applied: bool)
    | Restarted(persistent: Option<Option<Identity>>, loaded: bool)
    | LateWritten(k: string)
    | LateSaved(s: Snapshot)

  /** One step. Prefixes registered from outside are of pages written before. */
  ghost predicate Next(m: Service, a: Action, n: Service) {
    match a
    case PutReturned(f, ok) => CanReturn(m, f) && n == PutReturns(m, f, ok)
    case WritesPlanned(keys, pages) =>
      0 < |keys| == |pages| && m.InflightOk() && n == Cleaned(m, pages, PublishedCount(m.content, keys))
    case BatchSubmitted(keys, pages, exported) => n == Submits(m, keys, pages, exported).0
    case BatchEnded(j) => BatchEnds(m, n, j)
    case ExistingRegistered(keys, pages) =>
      |keys| == |pages| && (forall i | 0 <= i < |pages| :: pages[i].objectKey in m.durable)
        && Registers(m, n, keys, pages)
    case PublishStarted(pages) => n == PublishStarts(m, pages)
    case PublishEnded(keys, pages, first) => PublishEnds(m, n, keys, pages, first)
    case SaveReturned(ok, applied) => m.settled < |m.saves| && (ok ==> applied) && n == SaveReturns(m, ok, applied)
    case Restarted(persistent, loaded) => n == Restarts(m, persistent, loaded)
    case LateWritten(k) => k in m.late.keys && n == LateWrite(m, k)
    case LateSaved(s) => s in m.late.snapshots && n == LateSave(m, s)
  }

  lemma NextInv(m: Service, a: Action, n: Service)
    requires m.Inv() && Next(m, a, n)
    ensures n.Inv()
  {
    hide Service.Inv;
    match a
    case PutReturned(f, ok) => PutReturnsInv(m, f, ok);
    case WritesPlanned(keys, pages) => CleanedInv(m, pages, PublishedCount(m.content, keys));
    case BatchSubmitted(keys, pages, exported) => SubmitsInv(m, keys, pages, exported);
    case BatchEnded(j) => BatchEndsInv(m, n, j);
    case ExistingRegistered(keys, pages) => RegistersInv(m, n, keys, pages);
    case PublishStarted(pages) => PublishStartsInv(m, pages);
    case PublishEnded(keys, pages, first) => PublishEndsInv(m, n, keys, pages, first);
    case SaveReturned(ok, applied) => SaveReturnsInv(m, ok, applied);
    case Restarted(persistent, loaded) => RestartsInv(m, persistent, loaded);
    case LateWritten(k) => LateWriteInv(m, k);
    case LateSaved(s) => LateSaveInv(m, s);
  }

  /** No catalog was ever saved; `durable` are the objects in the store. */
  ghost predicate Initial(m: Service) {
    m == Started(m.persistent, m.durable, None, false, Late({}, {}, false))
  }

  ghost predicate IsStep(m: Service, n: Service) {
    exists a :: Next(m, a, n)
  }

  ghost predicate IsRun(run: seq<Service>) {
    && run != [] && Initial(run[0])
    && forall i {:trigger run[i]} | 0 < i < |run| :: IsStep(run[i-1], run[i])
  }

  lemma {:induction false} EveryRun(run: seq<Service>, i: nat)
    requires IsRun(run) && i < |run|
    ensures run[i].Inv()
  {
    if i > 0 {
      EveryRun(run, i - 1);
      assert IsStep(run[i-1], run[i]);
      var a :| Next(run[i-1], a, run[i]);
      hide *;
      NextInv(run[i-1], a, run[i]);
    }
  }

  // ---------- what that means ----------

  /** At every moment, through failures and restarts, every page that the catalog in memory or the
      catalog object in the store refers to was written. */
  lemma CatalogRefersToWrittenPages(run: seq<Service>, i: nat)
    requires IsRun(run) && i < |run|
    ensures ContentDurable(run[i].content, run[i].durable)
    ensures run[i].stored.Some? ==> forall k, l {:trigger run[i].stored.value.prefixes[k].pages[l]} |
      0 <= k < |run[i].stored.value.prefixes| && 0 <= l < |run[i].stored.value.prefixes[k].pages| ::
      run[i].stored.value.prefixes[k].pages[l].objectKey in run[i].durable
  {
    EveryRun(run, i);
    if run[i].stored.Some? {
      SafePages(run[i].stored.value, run[i].durable);
    }
  }

  lemma SafePages(s: Snapshot, durable: set<string>)
    requires SnapshotSafe(s, durable)
    ensures forall k, l {:trigger s.prefixes[k].pages[l]} | 0 <= k < |s.prefixes| && 0 <= l < |s.prefixes[k].pages| ::
      s.prefixes[k].pages[l].objectKey in durable
  {
    var c := Reloaded(Some(s));
    forall k, l | 0 <= k < |s.prefixes| && 0 <= l < |s.prefixes[k].pages|
      ensures s.prefixes[k].pages[l].objectKey in durable
    {
      hide Reloaded, ContentsOk;
      assert Describes(c, s.prefixes[k]);
      assert s.prefixes[k].blockKeys[..l+1] in c;
    }
  }

  /** An object counts as written only because a PUT of it succeeded, or because one that a process
      had left in flight took effect. */
  lemma WrittenByPut(m: Service, a: Action, n: Service, k: string)
    requires Next(m, a, n) && k in n.durable && k !in m.durable
    ensures if a.LateWritten? then k in m.late.keys
      else exists f :: 0 <= f < |n.puts| && n.puts[f] == PagePut(k, Succeeded)
  {
    match a
    case PutReturned(f, ok) =>
      assert n.puts[f] == PagePut(k, Succeeded);
    case BatchSubmitted(keys, pages, exported) =>
      PlannedShares(m, pages, PublishedCount(m.content, keys), |pages|);
      assert false;
    case _ =>
  }

  /** What is left in flight was started by the process that a restart replaced, and had no answer. */
  lemma LeftByRestart(m: Service, a: Action, n: Service)
    requires Next(m, a, n)
    ensures forall k | k in n.late.keys && k !in m.late.keys ::
      a.Restarted? && exists f :: 0 <= f < |m.puts| && m.puts[f] == PagePut(k, Pending)
    ensures forall s | s in n.late.snapshots && s !in m.late.snapshots ::
      a.Restarted? && exists i :: 0 <= i < |m.saves| && m.saves[i] == Save(s, Pending)
  {
    match a
    case Restarted(persistent, loaded) =>
      forall k | k in n.late.keys && k !in m.late.keys
        ensures exists f :: 0 <= f < |m.puts| && m.puts[f] == PagePut(k, Pending)
      {
        var p :| p in m.puts && p.status.Pending? && p.objectKey == k;
        assert p == PagePut(k, Pending);
      }
      forall s | s in n.late.snapshots && s !in m.late.snapshots
        ensures exists i :: 0 <= i < |m.saves| && m.saves[i] == Save(s, Pending)
      {
        var v :| v in m.saves && v.status.Pending? && v.snapshot == s;
        assert v == Save(s, Pending);
      }
    case BatchSubmitted(keys, pages, exported) =>
      PlannedShares(m, pages, PublishedCount(m.content, keys), |pages|);
    case _ =>
  }

  /** A batch shares exactly the PUTs that are in flight and starts the others. */
  lemma {:induction false} PlannedShares(m: Service, pages: seq<Descriptor>, from: nat, upto: nat)
    requires upto <= |pages|
    ensures var (n, fs) := Planned(m, pages, from, upto);
      && n == m.(puts := n.puts, inflight := n.inflight) && m.puts <= n.puts
      && |fs| == (if from < upto then upto - from else 0)
      && (forall i | 0 <= i < |fs| :: var k := pages[from + i].objectKey;
            if k in m.inflight then fs[i] == m.inflight[k]
            else |m.puts| <= fs[i] < |n.puts| && n.puts[fs[i]] == PagePut(k, Pending))
      && forall f | |m.puts| <= f < |n.puts| ::
           n.puts[f].objectKey in KeysOf(pages) && n.puts[f].objectKey !in m.inflight
  {
    if from < upto {
      PlannedShares(m, pages, from, upto - 1);
      assert pages[upto-1] in pages;
    }
  }

  /** A batch is published as a whole, exactly if all its PUTs succeeded and the catalog accepts it,
      or not at all. */
  lemma AllOrNothing(m: Service, n: Service, j: nat)
    requires m.Inv() && BatchEnds(m, n, j)
    ensures var w := m.pending[j];
      n.content == if BatchWritten(m, w) && Checked(m.identity, w.blockKeys, w.pages) == Done
                   then Registered(m.content, w.blockKeys, w.pages) else m.content
    ensures var w := m.pending[j];
      BatchWritten(m, w) && Checked(m.identity, w.blockKeys, w.pages) == Done ==>
        PublishedCount(n.content, w.blockKeys) == |w.blockKeys|
  {
    var w := m.pending[j];
    if BatchWritten(m, w) && Checked(m.identity, w.blockKeys, w.pages) == Done {
      PrefixMember(w.blockKeys, w.blockKeys);
    }
  }

  /** Once every save has returned, and the last one succeeded, a restart that reads the catalog
      object has the catalog it had before, unless a save of an earlier process came after it. */
  lemma RestartRecovers(run: seq<Service>, i: nat, persistent: Option<Option<Identity>>)
    requires IsRun(run) && i < |run| && !run[i].skipped
    requires run[i].settled == |run[i].saves| && !run[i].late.overwrote
      && (run[i].saves != [] ==> run[i].saves[|run[i].saves|-1].status.Succeeded?)
    ensures Restarts(run[i], persistent, true).content == run[i].content
  {
    EveryRun(run, i);
    hide IsRun;
    SavedContent(run[i]);
  }

  /** Such a late save is what the next process reads. It has the same catalog exactly if the late
      save was one of the same content. */
  lemma LateSaveIsRead(m: Service, s: Snapshot, persistent: Option<Option<Identity>>)
    requires m.Inv() && s in m.late.snapshots
    ensures Next(m, LateSaved(s), LateSave(m, s)) && LateSave(m, s).Inv()
    ensures Restarts(LateSave(m, s), persistent, true).content == m.content <==> IsSnapshot(m.content, s.prefixes)
  {
    hide Service.Inv, Reloaded, IsSnapshot;
    LateSaveInv(m, s);
    LateReads(m, s);
  }

  lemma LateReads(m: Service, s: Snapshot)
    requires m.Inv() && s in m.late.snapshots
    ensures Reloaded(Some(s)) == m.content <==> IsSnapshot(m.content, s.prefixes)
  {
    hide Reloaded, IsSnapshot, Service.UpToDate, Service.PutsOk, Service.SaveOk, ContentDurable;
    assert SnapshotSafe(s, m.durable);
    if IsSnapshot(m.content, s.prefixes) {
      SameContent(m.content, s);
    }
  }

  lemma SameContent(c: Contents, s: Snapshot)
    requires Closed(c) && IsSnapshot(c, s.prefixes)
    ensures Reloaded(Some(s)) == c
  {
    SnapshotRoundTrip(c, s.prefixes, s.prefixes);
  }

  // ---------- a late save that is not of the same content ----------

  function Only(x: BlockKey, page: Descriptor): Snapshot {
    Snapshot(page.identity, [Prefix([x], [page])])
  }

  lemma OnlyIsSnapshot(x: BlockKey, page: Descriptor)
    ensures IsSnapshotOf(Only(x, page), map[[x] := page], Some(page.identity))
  {
    var c := map[[x] := page];
    assert [x][..1] == [x];
    assert Longest(c, [x]);
    assert Describes(c, Prefix([x], [page]));
    assert Only(x, page).prefixes[0].blockKeys == [x];
  }

  lemma OnlyReloads(x: BlockKey, page: Descriptor)
    ensures Reloaded(Some(Only(x, page))) == map[[x] := page]
  {
    OnlyIsSnapshot(x, page);
    assert Closed(map[[x] := page]);
    SameContent(map[[x] := page], Only(x, page));
  }

  /** Registering one page in a process without a catalog. */
  function FirstSave(m: Service, x: BlockKey, page: Descriptor): Service {
    m.(content := map[[x] := page], identity := Some(page.identity), saves := [Save(Only(x, page), Pending)],
       skipped := false)
  }

  lemma RegistersFirst(m: Service, x: BlockKey, page: Descriptor)
    requires m.content == map[] && m.identity == None && m.persistent == Some(None) && m.saves == []
    requires page.pageIndex == 0 && page.objectKey in m.durable && WritableKey(x, |x|)
    ensures Next(m, ExistingRegistered([x], [page]), FirstSave(m, x, page))
  {
    OneRegistered(map[], x, page);
    OnlyIsSnapshot(x, page);
    hide IsSnapshotOf, Registered;
    assert OfPageSize(map[[x] := page], |x|);
  }

  lemma StepsTo(m: Service, a: Action, n: Service)
    requires Next(m, a, n)
    ensures IsStep(m, n)
  {
  }

  lemma Environment(m: Service, p: Service, q: Service, s: Snapshot)
    requires p.settled < |p.saves| && s in q.late.snapshots
    ensures Next(m, Restarted(Some(None), true), Restarts(m, Some(None), true))
    ensures Next(p, SaveReturned(true, true), SaveReturns(p, true, true))
    ensures Next(q, LateSaved(s), LateSave(q, s))
  {
  }

  /** One process registers page `a` and ends with the save under way; the next registers `b` and has
      its save confirmed; then the first save takes effect. The process after that has `a`, not `b`. */
  lemma LateSaveOvertakes(a: Descriptor, b: Descriptor, x: BlockKey, y: BlockKey) returns (run: seq<Service>)
    requires a.pageIndex == b.pageIndex == 0 && WritableKey(x, |x|) && WritableKey(y, |y|) && x != y
    ensures IsRun(run) && var m := run[|run|-1];
      && !m.skipped && m.settled == |m.saves| == 1 && m.saves[0].status.Succeeded? && m.late.overwrote
      && m.content == map[[y] := b] && Restarts(m, m.persistent, true).content == map[[x] := a]
  {
    hide Next, IsStep, Reloaded;
    var m0 := Started(Some(None), {a.objectKey, b.objectKey}, None, false, Late({}, {}, false));
    var m1 := FirstSave(m0, x, a);
    var m2 := Restarts(m1, Some(None), true);
    var m3 := FirstSave(m2, y, b);
    var m4 := SaveReturns(m3, true, true);
    var m5 := LateSave(m4, Only(x, a));
    assert m1.saves[0] in m1.saves && Only(x, a) in m4.late.snapshots;
    RegistersFirst(m0, x, a);
    RegistersFirst(m2, y, b);
    Environment(m1, m3, m4, Only(x, a));
    StepsTo(m0, ExistingRegistered([x], [a]), m1);
    StepsTo(m1, Restarted(Some(None), true), m2);
    StepsTo(m2, ExistingRegistered([y], [b]), m3);
    StepsTo(m3, SaveReturned(true, true), m4);
    StepsTo(m4, LateSaved(Only(x, a)), m5);
    OnlyReloads(x, a);
    run := [m0, m1, m2, m3, m4, m5];
  }

  lemma SavedContent(m: Service)
    requires m.Inv() && !m.skipped && m.settled == |m.saves| && !m.late.overwrote
    requires m.saves != [] ==> m.saves[|m.saves|-1].status.Succeeded?
    ensures Reloaded(m.stored) == m.content
  {
    if m.saves != [] {
      hide Service.PutsOk, Service.SavesOk, ContentsOk, ContentDurable, IsSnapshotOf, Reloaded, SnapshotSafe;
      SnapshotIsSafe(m.stored.value, m.content, m.identity, m.durable);
    }
  }
}
