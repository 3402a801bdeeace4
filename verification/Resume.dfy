/** Transfers that take several sessions, each cut at any point. */
module Resume {
  import opened Bytes
  import opened Sums
  import opened Wire
  import opened Layouts
  import opened Store
  import opened Sinks
  import opened Receivers
  import opened Network
  import opened Invariant
  import opened Sessions
  import opened Theorems
  import opened Termination
  import opened Honest
  import opened Losses
  import opened Loops

  /** What outlives a session: the files, chunk by chunk, and the sidecar. */
  datatype Persisted = Persisted(disk: seq<seq<byte>>, saved: Option<Sidecar>)

  /** How a session ends: suspended in good order, or killed, possibly while some
      chunk in flight was being written, which leaves any bytes in its place. */
  datatype Cutoff = Suspended | Killed | KilledWriting(chunk: nat, torn: seq<byte>)

  ghost predicate LegalCut(s: Net, cut: Cutoff) {
    cut.KilledWriting? ==> cut.chunk in FlightSet(s) && cut.chunk < |s.r.sink.disk| &&
                           |cut.torn| == |s.r.sink.disk[cut.chunk]|
  }

  ghost function AfterCut(s: Net, cut: Cutoff): Persisted
    requires LegalCut(s, cut)
  {
    match cut
    case Suspended => Persisted(s.r.sink.disk, Flush(s.r.sink).saved)
    case Killed => Persisted(s.r.sink.disk, s.r.sink.saved)
    case KilledWriting(j, torn) => Persisted(s.r.sink.disk[j := torn], s.r.sink.saved)
  }

  /** One session of the past: what the host knew, what happened, how it ended. */
  datatype Session = Session(cache: map<nat, Digest>, limit: nat, run: seq<Label>, cut: Cutoff)

  ghost predicate PersistedOk(l: Layout, p: Persisted) {
    FitsChunks(l, p.disk) && |p.disk| < MAX32 &&
    (p.saved.Some? ==> |p.saved.value.held| == |p.saved.value.hashes| == |p.disk|)
  }

  /** The setup of a session opened on what persisted. */
  ghost function Opened(l: Layout, p: Persisted, limit: nat): Setup
    requires l.chunk > 0
  {
    Setup(Open(l, p.disk, p.saved), limit)
  }

  /** The session can happen over an unchanged source src. */
  ghost predicate Happens(l: Layout, src: seq<seq<byte>>, p: Persisted, e: Session) {
    PersistedOk(l, p) && e.limit > DATA_HEADER && HonestCache(src, e.cache) &&
    var c := Opened(l, p, e.limit);
    var s := Initial(c, e.cache);
    Legal(c, s, e.run) && (forall k :: 0 <= k < |e.run| ==> HonestLabel(src, e.run[k])) &&
    LegalCut(Outcome(c, s, e.run), e.cut)
  }

  ghost function AfterSession(l: Layout, src: seq<seq<byte>>, p: Persisted, e: Session): Persisted
    requires Happens(l, src, p, e)
  {
    var c := Opened(l, p, e.limit);
    AfterCut(Outcome(c, Initial(c, e.cache), e.run), e.cut)
  }

  ghost predicate AllHappen(l: Layout, src: seq<seq<byte>>, p: Persisted, past: seq<Session>)
    decreases |past|
  {
    past == [] || (Happens(l, src, p, past[0]) && AllHappen(l, src, AfterSession(l, src, p, past[0]), past[1..]))
  }

  ghost function AfterAll(l: Layout, src: seq<seq<byte>>, p: Persisted, past: seq<Session>): Persisted
    requires AllHappen(l, src, p, past)
    decreases |past|
  {
    if past == [] then p else AfterAll(l, src, AfterSession(l, src, p, past[0]), past[1..])
  }

  /** Every bit of the sidecar whose hash is the source's is of a chunk with the
      source's bytes on disk, as far as hashes tell. */
  ghost predicate PersistedTrusted(l: Layout, src: seq<seq<byte>>, p: Persisted) {
    PersistedOk(l, p) && FitsChunks(l, src) &&
    (p.saved.Some? ==> Trusted(p.disk, p.saved.value.held, p.saved.value.hashes, src))
  }

  /** Files just created, without a sidecar, whatever they contain. */
  lemma FreshTrusted(l: Layout, src: seq<seq<byte>>, p: Persisted)
    requires PersistedOk(l, p) && FitsChunks(l, src) && p.saved.None?
    ensures PersistedTrusted(l, src, p)
  {
  }

  lemma OpenTrusted(l: Layout, src: seq<seq<byte>>, p: Persisted, limit: nat)
    requires PersistedTrusted(l, src, p) && limit > DATA_HEADER
    ensures var c := Opened(l, p, limit);
            ValidSetup(c) && SinkTrusted(c.start, src) && c.start.disk == p.disk && |c.start.held| == |src| &&
            c.start.layout == l &&
            (p.saved.Some? ==> c.start.held == p.saved.value.held && c.start.hashes == p.saved.value.hashes)
  {
    var s := Open(l, p.disk, p.saved);
    forall i: nat | i < |s.disk| && Good(s.held, s.hashes, src, i) ensures Sha256(s.disk[i]) == Sha256(src[i]) {
      if p.saved.Some? {
        assert Good(p.saved.value.held, p.saved.value.hashes, src, i);
      }
    }
  }

  /** Any cut of a session over an unchanged source leaves what deserves trust. */
  lemma CutTrusted(c: Setup, s: Net, src: seq<seq<byte>>, cut: Cutoff)
    requires HonestInv(c, s, src) && LegalCut(s, cut) && FitsChunks(c.start.layout, src)
    ensures PersistedTrusted(c.start.layout, src, AfterCut(s, cut))
  {
    var p := AfterCut(s, cut);
    if p.saved.Some? {
      forall i: nat | i < |p.disk| && Good(p.saved.value.held, p.saved.value.hashes, src, i)
        ensures Sha256(p.disk[i]) == Sha256(src[i])
      {
        assert Good(s.r.sink.held, s.r.sink.hashes, src, i);
        InOneSet(c, s, i);
      }
    }
  }

  lemma SessionTrusted(l: Layout, src: seq<seq<byte>>, p: Persisted, e: Session)
    requires PersistedTrusted(l, src, p) && Happens(l, src, p, e)
    ensures PersistedTrusted(l, src, AfterSession(l, src, p, e))
  {
    var c := Opened(l, p, e.limit);
    OpenTrusted(l, src, p, e.limit);
    StartHonest(c, e.cache, src);
    RunKeepsHonest(c, Initial(c, e.cache), src, e.run);
    CutTrusted(c, Outcome(c, Initial(c, e.cache), e.run), src, e.cut);
  }

  /** Crash consistency. Over any series of sessions with an unchanged source, each
      cut anywhere, every persisted bit whose hash is the source's hash is of a
      chunk whose bytes on disk have that hash. */
  lemma {:induction false} ResumeConsistent(l: Layout, src: seq<seq<byte>>, p: Persisted, past: seq<Session>)
    requires PersistedTrusted(l, src, p) && AllHappen(l, src, p, past)
    ensures PersistedTrusted(l, src, AfterAll(l, src, p, past))
    decreases |past|
  {
    if past != [] {
      SessionTrusted(l, src, p, past[0]);
      ResumeConsistent(l, src, AfterSession(l, src, p, past[0]), past[1..]);
    }
  }

  /** What a cut can cost. Against any host that runs serve, however the source
      changes, and wherever a session is cut, it leaves a sidecar of the right
      lengths, which the next session loads as it is; and the chunks recorded in
      memory that the sidecar does not record are none after a suspension and
      otherwise at most the writes since the last flush, fewer than 64. */
  lemma CutLoses(l: Layout, p: Persisted, limit: nat, cache: map<nat, Digest>, run: seq<Label>, cut: Cutoff)
    requires PersistedOk(l, p) && limit > DATA_HEADER
    requires var c := Opened(l, p, limit);
             Legal(c, Initial(c, cache), run) && LegalCut(Outcome(c, Initial(c, cache), run), cut)
    ensures var c := Opened(l, p, limit);
            var s := Outcome(c, Initial(c, cache), run);
            var q := AfterCut(s, cut);
            PersistedOk(l, q) && q.saved.Some? && |s.r.sink.held| == |s.r.sink.hashes| == |q.disk| &&
            |Unsaved(s.r.sink, q.saved.value)| <= (if cut.Suspended? then 0 else s.r.sink.dirty) <= 63 &&
            Open(l, q.disk, q.saved).held == q.saved.value.held &&
            Open(l, q.disk, q.saved).hashes == q.saved.value.hashes
  {
    hide Legal;
    hide Outcome;
    hide Initial;
    hide RunFrom;
    var c := Opened(l, p, limit);
    var s := Outcome(c, Initial(c, cache), run);
    var fs := PeerTook(c, Initial(c, cache), run);
    OpenLoses(l, p.disk, p.saved);
    PeerIsRun(c, cache, run);
    AnyHostLoss(c.start, fs);
    RunFromFormed(c.start, fs);
    NothingUnsaved(s.r.sink);
  }

  /** What Verify rejects on resume. A persisted bit is rejected by the source's
      hashes exactly when its recorded hash is not the source's; every stale bit,
      one whose recorded hash is not that of the bytes on disk, is among them. */
  lemma StaleRejected(l: Layout, src: seq<seq<byte>>, p: Persisted, past: seq<Session>, first: nat, count: nat, i: nat)
    requires PersistedTrusted(l, src, p) && AllHappen(l, src, p, past)
    requires var q := AfterAll(l, src, p, past);
             q.saved.Some? && first <= i < first + count <= |src| && |q.disk| == |src| &&
             |q.saved.value.held| == |q.saved.value.hashes| == |src| &&
             q.saved.value.held[i]
    ensures var q := AfterAll(l, src, p, past);
            var rejected := i in Bad(Open(l, q.disk, q.saved), first, Flatten(Digests(src)[first..first + count]));
            (rejected <==> q.saved.value.hashes[i] != Sha256(src[i])) &&
            (q.saved.value.hashes[i] != Sha256(q.disk[i]) ==> rejected)
  {
    ResumeConsistent(l, src, p, past);
    var q := AfterAll(l, src, p, past);
    if q.saved.value.hashes[i] == Sha256(src[i]) {
      assert Good(q.saved.value.held, q.saved.value.hashes, src, i);
    }
    HashRejected(Open(l, q.disk, q.saved), src, first, count, i);
  }

  /** A held chunk is one Verify returns exactly when its recorded hash is not the source's. */
  lemma HashRejected(s: Sink, src: seq<seq<byte>>, first: nat, count: nat, i: nat)
    requires |s.held| == |s.hashes| == |src| && first <= i < first + count <= |src|
    requires s.held[i]
    ensures i in Bad(s, first, Flatten(Digests(src)[first..first + count])) <==> s.hashes[i] != Sha256(src[i])
  {
    var ds := Digests(src)[first..first + count];
    FlattenAt(ds, i - first);
    assert ds[i - first] == Sha256(src[i]);
    BadExact(s, first, Flatten(ds));
    assert DigestAt(Flatten(ds), i - first) == Sha256(src[i]);
  }

  /** Where a session over an unchanged source ends, given a sink that deserves trust. */
  lemma SessionOutcome(c: Setup, cache: map<nat, Digest>, src: seq<seq<byte>>, run: seq<Label>)
    requires ValidSetup(c) && |src| == |c.start.held| && HonestCache(src, cache) && SinkTrusted(c.start, src)
    requires Legal(c, Initial(c, cache), run) && forall k :: 0 <= k < |run| ==> HonestLabel(src, run[k])
    requires forall a :: !Enabled(c, Outcome(c, Initial(c, cache), run), a)
    ensures var r, n := Outcome(c, Initial(c, cache), run).r, |src|;
            r.fault.None? && AllVerified(r) &&
            if n == 0 || !c.start.held[n - 1] || c.start.hashes[n - 1] != Sha256(src[n - 1])
            then Succeeds(r) && SameOrCollision(r.sink.disk, r.sink.hashes, src)
            else !Finished(r)
  {
    hide Legal;
    hide Outcome;
    hide Initial;
    hide Sum;
    hide Total;
    hide Enabled;
    hide Trusted;
    hide ChunksOk;
    hide WindowsOk;
    var s := Outcome(c, Initial(c, cache), run);
    StartHonest(c, cache, src);
    RunKeepsHonest(c, Initial(c, cache), src, run);
    EndsWell(c, s);
    VerifiedHashes(c, s);
    if Finished(s.r) {
      FinishedIdentical(c, s, src);
    }
  }

  /** Eventual success. After any such past, a further session never faults; it
      always ends (RunsEnd); and where it ends it has succeeded, with files that
      equal the source's or exhibit a collision, exactly when there is nothing to
      fetch, or the last chunk is not recorded, or not with the source's hash. */
  lemma ResumeOutcome(l: Layout, src: seq<seq<byte>>, p: Persisted, past: seq<Session>,
                      limit: nat, cache: map<nat, Digest>, run: seq<Label>)
    requires PersistedTrusted(l, src, p) && AllHappen(l, src, p, past) && limit > DATA_HEADER && HonestCache(src, cache)
    requires var c := Opened(l, AfterAll(l, src, p, past), limit);
             Legal(c, Initial(c, cache), run) && (forall k :: 0 <= k < |run| ==> HonestLabel(src, run[k])) &&
             forall a :: !Enabled(c, Outcome(c, Initial(c, cache), run), a)
    ensures var c := Opened(l, AfterAll(l, src, p, past), limit);
            var r, n := Outcome(c, Initial(c, cache), run).r, |src|;
            r.fault.None? && AllVerified(r) && |c.start.held| == |c.start.hashes| == n &&
            if n == 0 || !c.start.held[n - 1] || c.start.hashes[n - 1] != Sha256(src[n - 1])
            then Succeeds(r) && SameOrCollision(r.sink.disk, r.sink.hashes, src)
            else !Finished(r)
  {
    hide Legal;
    hide Outcome;
    hide Initial;
    hide AfterAll;
    hide Enabled;
    hide AllVerified;
    hide Succeeds;
    ResumeConsistent(l, src, p, past);
    OpenTrusted(l, src, AfterAll(l, src, p, past), limit);
    SessionOutcome(Opened(l, AfterAll(l, src, p, past), limit), cache, src, run);
  }

  /** A download from its beginning: a directory without a sidecar, then any series
      of sessions, each cut anywhere. A further session that runs to its end never
      faults, and it leaves the source's files, or a named collision, exactly when
      there is nothing to fetch, or the last chunk is not recorded by then, or not
      with the source's hash. */
  lemma FreshOutcome(l: Layout, srcFiles: seq<seq<byte>>, p: Persisted, past: seq<Session>,
                     limit: nat, cache: map<nat, Digest>, run: seq<Label>)
    requires PersistedOk(l, p) && p.saved.None? && Fits(l, srcFiles)
    requires AllHappen(l, ChunksOf(l, srcFiles), p, past) && limit > DATA_HEADER
    requires HonestCache(ChunksOf(l, srcFiles), cache)
    requires var src := ChunksOf(l, srcFiles);
             var c := Opened(l, AfterAll(l, src, p, past), limit);
             Legal(c, Initial(c, cache), run) && (forall k :: 0 <= k < |run| ==> HonestLabel(src, run[k])) &&
             forall a :: !Enabled(c, Outcome(c, Initial(c, cache), run), a)
    ensures var src := ChunksOf(l, srcFiles);
            var c := Opened(l, AfterAll(l, src, p, past), limit);
            var r, n := Outcome(c, Initial(c, cache), run).r, |src|;
            r.fault.None? && AllVerified(r) && |c.start.held| == |c.start.hashes| == n &&
            if n == 0 || !c.start.held[n - 1] || c.start.hashes[n - 1] != Sha256(src[n - 1])
            then Succeeds(r) &&
                 forall files :: Fits(l, files) && ChunksOf(l, files) == r.sink.disk ==>
                   SameFilesOrCollision(l, files, r.sink.hashes, srcFiles)
            else !Finished(r)
  {
    hide Legal;
    hide Outcome;
    hide Initial;
    hide AfterAll;
    hide AllHappen;
    hide Enabled;
    hide AllVerified;
    hide Succeeds;
    hide SameOrCollision;
    hide SameFilesOrCollision;
    hide ChunksOf;
    var src := ChunksOf(l, srcFiles);
    ChunksOfFit(l, srcFiles);
    FreshTrusted(l, src, p);
    ResumeOutcome(l, src, p, past, limit, cache, run);
    var c := Opened(l, AfterAll(l, src, p, past), limit);
    var r := Outcome(c, Initial(c, cache), run).r;
    if Succeeds(r) && SameOrCollision(r.sink.disk, r.sink.hashes, src) {
      forall files | Fits(l, files) && ChunksOf(l, files) == r.sink.disk
        ensures SameFilesOrCollision(l, files, r.sink.hashes, srcFiles)
      {
        SameFiles(l, files, r.sink.hashes, srcFiles);
      }
    }
  }

  /** A session opened with the last chunk recorded under the source's hash never finishes, however it runs. */
  lemma NeverFinishes(c: Setup, cache: map<nat, Digest>, src: seq<seq<byte>>, run: seq<Label>)
    requires ValidSetup(c) && |src| == |c.start.held| > 0 && HonestCache(src, cache) && SinkTrusted(c.start, src)
    requires c.start.held[|src| - 1] && c.start.hashes[|src| - 1] == Sha256(src[|src| - 1])
    requires Legal(c, Initial(c, cache), run) && forall k :: 0 <= k < |run| ==> HonestLabel(src, run[k])
    ensures !Finished(Outcome(c, Initial(c, cache), run).r)
  {
    hide Legal;
    hide Outcome;
    hide Initial;
    hide Sum;
    hide Total;
    hide Trusted;
    hide ChunksOk;
    hide WindowsOk;
    StartHonest(c, cache, src);
    RunKeepsHonest(c, Initial(c, cache), src, run);
    var s := Outcome(c, Initial(c, cache), run);
    if Finished(s.r) {
      FinishedNeedsLast(c, s);
    }
  }

  /** One file of one byte, already received and recorded, the transfer killed
      before DONE arrived: resuming it can never finish. */
  lemma ResumeHangsExample(run: seq<Label>)
    requires var l := Layout(1, 1, [1], [0]);
             var c := Setup(Open(l, [[7]], Some(Sidecar([true], [Sha256([7])]))), MAX_MESSAGE);
             Legal(c, Initial(c, map[]), run) && forall k :: 0 <= k < |run| ==> HonestLabel([[7]], run[k])
    ensures var l := Layout(1, 1, [1], [0]);
            var c := Setup(Open(l, [[7]], Some(Sidecar([true], [Sha256([7])]))), MAX_MESSAGE);
            !Finished(Outcome(c, Initial(c, map[]), run).r)
  {
    var l := Layout(1, 1, [1], [0]);
    assert l.files[..0] == [] && l.files[..1] == [1];
    assert l.Valid() && l.Chunks() == 1;
    var p := Persisted([[7]], Some(Sidecar([true], [Sha256([7])])));
    OpenTrusted(l, [[7]], p, MAX_MESSAGE);
    NeverFinishes(Opened(l, p, MAX_MESSAGE), map[], [[7]], run);
  }
}
