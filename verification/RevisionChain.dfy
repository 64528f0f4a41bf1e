/** Fail-closed revision chains.  `ControlPlaneRevisionTracker` keeps bare
    checkpoints in memory; `ControlPlaneStore` keeps rows with the objects.  Both
    are proved against step functions, the two step functions are proved to run
    in lockstep, and a head digest is proved to commit to the whole history. */
module RevisionChain {
  import opened Basics
  import opened Crypto
  import opened ControlObjects

  /** `True`, `False` and an exception of the `accept_*` operations. */
  datatype Verdict = Accepted | Unchanged | Rejected

  datatype Checkpoint = Checkpoint(sequence: int, digest: Bytes, terminal: bool)

  /** The revision is the one that may follow the checkpoint. */
  predicate Follows(current: Option<Checkpoint>, sequence: int, previous: Bytes, forbidAfterTerminal: bool) {
    match current
    case None => sequence == 1 && previous == GENESIS_DIGEST
    case Some(cp) => sequence == cp.sequence + 1 && previous == cp.digest && !(forbidAfterTerminal && cp.terminal)
  }

  function Judge(current: Option<Checkpoint>, sequence: int, previous: Bytes, digest: Bytes,
                 forbidAfterTerminal: bool): Verdict {
    if Follows(current, sequence, previous, forbidAfterTerminal) then Accepted
    else if current.Some? && sequence == current.value.sequence && digest == current.value.digest then Unchanged
    else Rejected
  }

  datatype Key = DescriptorKey(nodeId: string) | ReachabilityKey(nodeId: string) | HumanKey(humanId: string, nodeId: string)

  function KeyOf(r: Revision): Key {
    match r
    case OfDescriptor(d) => DescriptorKey(d.nodeId)
    case OfReachability(x) => ReachabilityKey(x.nodeId)
    case OfGrant(g) => HumanKey(g.humanId, g.deviceNodeId)
    case OfRevocation(v) => HumanKey(v.humanId, v.deviceNodeId)
  }

  /** One call: the revision offered, the descriptor passed along with it (the
      revision itself when it is a descriptor), and the clock. */
  datatype Offer = Offer(revision: Revision, descriptor: NodeDescriptor, now: int) {
    predicate Verifies(c: Suite) {
      match revision
      case OfDescriptor(d) => d.Verifies(c, now)
      case OfReachability(r) => r.Verifies(c, descriptor, now)
      case OfGrant(g) => g.Verifies(c, descriptor, now)
      case OfRevocation(v) => v.Verifies(c, descriptor, now)
    }

    predicate IsHumanEvent() {
      revision.OfGrant? || revision.OfRevocation?
    }
  }

  // ----- The in-memory tracker -----

  datatype Tracker = Tracker(descriptors: map<string, Checkpoint>, reachability: map<string, Checkpoint>,
                             humanDevices: map<(string, string), Checkpoint>)
  {
    function At(key: Key): Option<Checkpoint> {
      match key
      case DescriptorKey(n) => if n in descriptors then Some(descriptors[n]) else None
      case ReachabilityKey(n) => if n in reachability then Some(reachability[n]) else None
      case HumanKey(h, n) => if (h, n) in humanDevices then Some(humanDevices[(h, n)]) else None
    }

    function Put(key: Key, cp: Checkpoint): Tracker {
      match key
      case DescriptorKey(n) => this.(descriptors := descriptors[n := cp])
      case ReachabilityKey(n) => this.(reachability := reachability[n := cp])
      case HumanKey(h, n) => this.(humanDevices := humanDevices[(h, n) := cp])
    }

    predicate BindsTo(c: Suite, descriptor: NodeDescriptor) {
      descriptor.nodeId in descriptors && descriptors[descriptor.nodeId].digest == descriptor.Digest(c)
    }
  }

  const EMPTY_TRACKER := Tracker(map[], map[], map[])

  /** The verdict on an offer; a rejected or unchanged offer leaves no trace. */
  function TrackerVerdict(c: Suite, t: Tracker, o: Offer): Verdict {
    var r := o.revision;
    if !o.Verifies(c) then Rejected
    else if !r.OfDescriptor? && !t.BindsTo(c, o.descriptor) then Rejected
    else if r.OfRevocation? && t.At(KeyOf(r)).None? then Rejected
    else Judge(t.At(KeyOf(r)), r.Sequence(), r.Previous(), r.Digest(c), o.IsHumanEvent())
  }

  function TrackerStep(c: Suite, t: Tracker, o: Offer): Tracker {
    var r := o.revision;
    if TrackerVerdict(c, t, o) == Accepted
    then t.Put(KeyOf(r), Checkpoint(r.Sequence(), r.Digest(c), r.OfRevocation?))
    else t
  }

  // ----- The durable store -----

  datatype DescriptorRow = DescriptorRow(sequence: int, digest: Bytes, stored: NodeDescriptor)

  datatype ReachabilityRow = ReachabilityRow(sequence: int, digest: Bytes, descriptorDigest: Bytes, expiresMs: int,
                                             stored: ReachabilityRecord)

  datatype HumanRow = HumanRow(sequence: int, digest: Bytes, descriptorDigest: Bytes, terminal: bool,
                               eventType: string, stored: Revision)

  datatype Store = Store(descriptors: map<string, DescriptorRow>, reachability: map<string, ReachabilityRow>,
                         humanDevices: map<(string, string), HumanRow>)
  {
    function At(key: Key): Option<Checkpoint> {
      match key
      case DescriptorKey(n) =>
        if n in descriptors then Some(Checkpoint(descriptors[n].sequence, descriptors[n].digest, false)) else None
      case ReachabilityKey(n) =>
        if n in reachability then Some(Checkpoint(reachability[n].sequence, reachability[n].digest, false)) else None
      case HumanKey(h, n) =>
        if (h, n) in humanDevices then
          var row := humanDevices[(h, n)];
          Some(Checkpoint(row.sequence, row.digest, row.terminal))
        else None
    }

    function Put(c: Suite, r: Revision): Store {
      match r
      case OfDescriptor(d) =>
        this.(descriptors := descriptors[d.nodeId := DescriptorRow(d.sequence, d.Digest(c), d)])
      case OfReachability(x) =>
        this.(reachability := reachability[x.nodeId :=
          ReachabilityRow(x.sequence, x.Digest(c), x.descriptorDigest, x.expiresMs, x)])
      case OfGrant(g) =>
        this.(humanDevices := humanDevices[(g.humanId, g.deviceNodeId) :=
          HumanRow(g.sequence, g.Digest(c), g.descriptorDigest, false, "grant", r)])
      case OfRevocation(v) =>
        this.(humanDevices := humanDevices[(v.humanId, v.deviceNodeId) :=
          HumanRow(v.sequence, v.Digest(c), v.descriptorDigest, true, "revocation", r)])
    }

    predicate BindsTo(c: Suite, descriptor: NodeDescriptor) {
      descriptor.nodeId in descriptors && descriptors[descriptor.nodeId].digest == descriptor.Digest(c)
    }

    /** What the tracker would remember of this store. */
    function Checkpoints(): Tracker {
      Tracker(DescriptorHeads(descriptors), ReachabilityHeads(reachability), HumanHeads(humanDevices))
    }
  }

  function DescriptorHeads(rows: map<string, DescriptorRow>): map<string, Checkpoint> {
    map n | n in rows :: Checkpoint(rows[n].sequence, rows[n].digest, false)
  }

  function ReachabilityHeads(rows: map<string, ReachabilityRow>): map<string, Checkpoint> {
    map n | n in rows :: Checkpoint(rows[n].sequence, rows[n].digest, false)
  }

  function HumanHeads(rows: map<(string, string), HumanRow>): map<(string, string), Checkpoint> {
    map k | k in rows :: Checkpoint(rows[k].sequence, rows[k].digest, rows[k].terminal)
  }

  const EMPTY_STORE := Store(map[], map[], map[])

  function StoreVerdict(c: Suite, s: Store, o: Offer): Verdict {
    var r := o.revision;
    if !o.Verifies(c) then Rejected
    else if !r.OfDescriptor? && !s.BindsTo(c, o.descriptor) then Rejected
    else if r.OfRevocation? && s.At(KeyOf(r)).None? then Rejected
    else Judge(s.At(KeyOf(r)), r.Sequence(), r.Previous(), r.Digest(c), o.IsHumanEvent())
  }

  function StoreStep(c: Suite, s: Store, o: Offer): Store {
    if StoreVerdict(c, s, o) == Accepted then s.Put(c, o.revision) else s
  }

  /** The row of a descriptor, verified again on the way out. */
  function CurrentDescriptor(c: Suite, s: Store, nodeId: string, now: int): Result<Option<NodeDescriptor>> {
    if !IsNodeId(nodeId) then Err(ValueError)
    else if nodeId !in s.descriptors then Ok(None)
    else if !s.descriptors[nodeId].stored.Verifies(c, now) then Err(ValueError)
    else Ok(Some(s.descriptors[nodeId].stored))
  }

  function ReachabilityLookup(c: Suite, s: Store, nodeId: string, now: int): Result<Option<ReachabilityRecord>> {
    var descriptor :- CurrentDescriptor(c, s, nodeId, now);
    if descriptor.None? || descriptor.value.nodeId !in s.reachability then Ok(None)
    else
      var row := s.reachability[descriptor.value.nodeId];
      if row.expiresMs <= now || row.descriptorDigest != descriptor.value.Digest(c) then Ok(None)
      else if row.stored.Verifies(c, descriptor.value, now) then Ok(Some(row.stored))
      else Err(ValueError)
  }

  function GrantLookup(c: Suite, s: Store, humanId: string, nodeId: string, now: int): Result<Option<HumanDeviceGrant>> {
    var descriptor :- CurrentDescriptor(c, s, nodeId, now);
    if descriptor.None? then Ok(None)
    else if !IsHumanId(humanId) then Err(ValueError)
    else
      var key := (humanId, descriptor.value.nodeId);
      if key !in s.humanDevices || s.humanDevices[key].eventType != "grant"
         || s.humanDevices[key].descriptorDigest != descriptor.value.Digest(c)
      then Ok(None)
      else
        var row := s.humanDevices[key];
        if row.stored.OfGrant? && row.stored.grant.Verifies(c, descriptor.value, now) then Ok(Some(row.stored.grant))
        else Err(ValueError)
  }

  predicate IsRevoked(s: Store, humanId: string, nodeId: string) {
    (humanId, nodeId) in s.humanDevices && s.humanDevices[(humanId, nodeId)].terminal
  }

  // ----- Runs -----

  function RunTracker(c: Suite, t: Tracker, run: seq<Offer>): Tracker
    decreases |run|
  {
    if run == [] then t else RunTracker(c, TrackerStep(c, t, run[0]), run[1..])
  }

  function RunStore(c: Suite, s: Store, run: seq<Offer>): Store
    decreases |run|
  {
    if run == [] then s else RunStore(c, StoreStep(c, s, run[0]), run[1..])
  }

  function TrackerVerdicts(c: Suite, t: Tracker, run: seq<Offer>): seq<Verdict>
    decreases |run|
  {
    if run == [] then [] else [TrackerVerdict(c, t, run[0])] + TrackerVerdicts(c, TrackerStep(c, t, run[0]), run[1..])
  }

  function StoreVerdicts(c: Suite, s: Store, run: seq<Offer>): seq<Verdict>
    decreases |run|
  {
    if run == [] then [] else [StoreVerdict(c, s, run[0])] + StoreVerdicts(c, StoreStep(c, s, run[0]), run[1..])
  }

  function Added(c: Suite, s: Store, o: Offer, key: Key): seq<Revision> {
    if StoreVerdict(c, s, o) == Accepted && KeyOf(o.revision) == key then [o.revision] else []
  }

  /** The revisions a run adds to one chain, in order. */
  function History(c: Suite, s: Store, run: seq<Offer>, key: Key): seq<Revision>
    decreases |run|
  {
    if run == [] then []
    else Added(c, s, run[0], key) + History(c, StoreStep(c, s, run[0]), run[1..], key)
  }

  // ----- Lockstep -----

  lemma SameCheckpoints(s: Store, key: Key)
    ensures s.Checkpoints().At(key) == s.At(key)
  {
  }

  lemma DescriptorHeadsUpdate(rows: map<string, DescriptorRow>, n: string, row: DescriptorRow)
    ensures DescriptorHeads(rows[n := row]) == DescriptorHeads(rows)[n := Checkpoint(row.sequence, row.digest, false)]
  {
  }

  lemma ReachabilityHeadsUpdate(rows: map<string, ReachabilityRow>, n: string, row: ReachabilityRow)
    ensures ReachabilityHeads(rows[n := row]) == ReachabilityHeads(rows)[n := Checkpoint(row.sequence, row.digest, false)]
  {
  }

  lemma HumanHeadsUpdate(rows: map<(string, string), HumanRow>, k: (string, string), row: HumanRow)
    ensures HumanHeads(rows[k := row]) == HumanHeads(rows)[k := Checkpoint(row.sequence, row.digest, row.terminal)]
  {
  }

  lemma PutCommutes(c: Suite, s: Store, r: Revision)
    ensures s.Put(c, r).Checkpoints()
            == s.Checkpoints().Put(KeyOf(r), Checkpoint(r.Sequence(), r.Digest(c), r.OfRevocation?))
  {
    hide DescriptorHeads, ReachabilityHeads, HumanHeads;
    match r
    case OfDescriptor(d) => DescriptorHeadsUpdate(s.descriptors, d.nodeId, s.Put(c, r).descriptors[d.nodeId]);
    case OfReachability(x) => ReachabilityHeadsUpdate(s.reachability, x.nodeId, s.Put(c, r).reachability[x.nodeId]);
    case OfGrant(g) =>
      HumanHeadsUpdate(s.humanDevices, (g.humanId, g.deviceNodeId), s.Put(c, r).humanDevices[(g.humanId, g.deviceNodeId)]);
    case OfRevocation(v) =>
      HumanHeadsUpdate(s.humanDevices, (v.humanId, v.deviceNodeId), s.Put(c, r).humanDevices[(v.humanId, v.deviceNodeId)]);
  }

  lemma LockstepStep(c: Suite, s: Store, o: Offer)
    ensures StoreVerdict(c, s, o) == TrackerVerdict(c, s.Checkpoints(), o)
    ensures StoreStep(c, s, o).Checkpoints() == TrackerStep(c, s.Checkpoints(), o)
  {
    SameCheckpoints(s, KeyOf(o.revision));
    PutCommutes(c, s, o.revision);
  }

  lemma {:induction false} LockstepRun(c: Suite, s: Store, run: seq<Offer>)
    ensures StoreVerdicts(c, s, run) == TrackerVerdicts(c, s.Checkpoints(), run)
    ensures RunStore(c, s, run).Checkpoints() == RunTracker(c, s.Checkpoints(), run)
    decreases |run|
  {
    if run == [] {
    } else {
      LockstepStep(c, s, run[0]);
      LockstepRun(c, StoreStep(c, s, run[0]), run[1..]);
    }
  }

  /** On every sequence of offers the two implementations give the same verdicts
      and end with the same checkpoints. */
  lemma TrackerAndStoreAgree(c: Suite, run: seq<Offer>)
    ensures StoreVerdicts(c, EMPTY_STORE, run) == TrackerVerdicts(c, EMPTY_TRACKER, run)
    ensures RunStore(c, EMPTY_STORE, run).Checkpoints() == RunTracker(c, EMPTY_TRACKER, run)
  {
    assert EMPTY_STORE.Checkpoints() == EMPTY_TRACKER;
    LockstepRun(c, EMPTY_STORE, run);
  }

  // ----- Chains and commitment -----

  /** `h` is a chain from genesis whose last link is the checkpoint. */
  ghost predicate ChainEndsAt(c: Suite, h: seq<Revision>, head: Option<Checkpoint>) {
    && (forall i :: 0 <= i < |h| ==> h[i].HasItsType() && h[i].Sequence() == i + 1)
    && (h != [] ==> h[0].Previous() == GENESIS_DIGEST)
    && (forall i :: 0 < i < |h| ==> h[i].Previous() == h[i - 1].Digest(c))
    && (h == [] <==> head.None?)
    && (h != [] ==> head.value.sequence == |h| && head.value.digest == h[|h| - 1].Digest(c))
  }

  lemma AcceptedFollows(c: Suite, s: Store, o: Offer)
    requires StoreVerdict(c, s, o) == Accepted
    ensures o.revision.HasItsType()
    ensures Follows(s.At(KeyOf(o.revision)), o.revision.Sequence(), o.revision.Previous(), o.IsHumanEvent())
  {
  }

  lemma PutAt(c: Suite, s: Store, r: Revision, key: Key)
    ensures s.Put(c, r).At(key)
            == if KeyOf(r) == key then Some(Checkpoint(r.Sequence(), r.Digest(c), r.OfRevocation?)) else s.At(key)
  {
  }

  lemma FollowingExtendsChain(c: Suite, h: seq<Revision>, head: Option<Checkpoint>, r: Revision, forbid: bool, terminal: bool)
    requires ChainEndsAt(c, h, head) && r.HasItsType()
    requires Follows(head, r.Sequence(), r.Previous(), forbid)
    ensures ChainEndsAt(c, h + [r], Some(Checkpoint(r.Sequence(), r.Digest(c), terminal)))
  {
  }

  lemma StepExtendsChain(c: Suite, s: Store, o: Offer, key: Key, h: seq<Revision>)
    requires ChainEndsAt(c, h, s.At(key))
    ensures ChainEndsAt(c, h + Added(c, s, o, key), StoreStep(c, s, o).At(key))
  {
    if StoreVerdict(c, s, o) == Accepted {
      AcceptedFollows(c, s, o);
      PutAt(c, s, o.revision, key);
      if KeyOf(o.revision) == key {
        FollowingExtendsChain(c, h, s.At(key), o.revision, o.IsHumanEvent(), o.revision.OfRevocation?);
      } else {
        assert h + [] == h;
      }
    } else {
      assert h + [] == h;
    }
  }

  lemma {:induction false} RunExtendsChain(c: Suite, s: Store, run: seq<Offer>, key: Key, h: seq<Revision>, full: seq<Revision>)
    requires ChainEndsAt(c, h, s.At(key))
    requires full == h + History(c, s, run, key)
    ensures ChainEndsAt(c, full, RunStore(c, s, run).At(key))
    decreases |run|
  {
    hide ChainEndsAt, StoreStep, Added;
    if run == [] {
      assert full == h;
    } else {
      var added := Added(c, s, run[0], key);
      StepExtendsChain(c, s, run[0], key, h);
      assert full == h + added + History(c, StoreStep(c, s, run[0]), run[1..], key);
      RunExtendsChain(c, StoreStep(c, s, run[0]), run[1..], key, h + added, full);
    }
  }

  /** Every chain a store holds starts at genesis, is numbered 1..n without gaps,
      links each revision to its predecessor's digest, and ends at the head. */
  lemma HeadEndsItsHistory(c: Suite, run: seq<Offer>, key: Key)
    ensures ChainEndsAt(c, History(c, EMPTY_STORE, run, key), RunStore(c, EMPTY_STORE, run).At(key))
  {
    RunExtendsChain(c, EMPTY_STORE, run, key, [], History(c, EMPTY_STORE, run, key));
  }

  /** Two different accepted revisions with one digest. */
  ghost predicate Collides(c: Suite, a: seq<Revision>, b: seq<Revision>) {
    exists i, j :: 0 <= i < |a| && 0 <= j < |b|
      && a[i].DigestedFields() != b[j].DigestedFields() && a[i].Digest(c) == b[j].Digest(c)
  }

  lemma CollidesUpward(c: Suite, a: seq<Revision>, b: seq<Revision>, m: nat, n: nat)
    requires m <= |a| && n <= |b| && Collides(c, a[..m], b[..n])
    ensures Collides(c, a, b)
  {
    var i, j :| 0 <= i < m && 0 <= j < n
      && a[..m][i].DigestedFields() != b[..n][j].DigestedFields() && a[..m][i].Digest(c) == b[..n][j].Digest(c);
    assert a[i].DigestedFields() != b[j].DigestedFields() && a[i].Digest(c) == b[j].Digest(c);
  }

  lemma PrefixOfChain(c: Suite, h: seq<Revision>, head: Checkpoint)
    requires ChainEndsAt(c, h, Some(head)) && |h| > 1
    ensures var m := |h| - 1;
      ChainEndsAt(c, h[..m], Some(Checkpoint(m, h[m].Previous(), false)))
  {
  }

  /** The last links of chains with one head digest: equal, in chains of one
      length, or a collision. */
  lemma LastLinksAgree(c: Suite, a: seq<Revision>, b: seq<Revision>, x: Checkpoint, y: Checkpoint)
    requires ChainEndsAt(c, a, Some(x)) && ChainEndsAt(c, b, Some(y)) && x.digest == y.digest
    ensures a != [] && b != []
    ensures Collides(c, a, b) || (|a| == |b| && a[|a| - 1] == b[|b| - 1])
  {
    var m, n := |a| - 1, |b| - 1;
    assert a[m].Digest(c) == b[n].Digest(c);
    if a[m].DigestedFields() == b[n].DigestedFields() {
      FieldsDetermineRevision(a[m], b[n]);
      assert a[m].Sequence() == |a| && b[n].Sequence() == |b|;
    }
  }

  lemma {:induction false} EqualHeadsEqualChains(c: Suite, a: seq<Revision>, b: seq<Revision>, x: Checkpoint, y: Checkpoint)
    requires ChainEndsAt(c, a, Some(x)) && ChainEndsAt(c, b, Some(y)) && x.digest == y.digest
    ensures a == b || Collides(c, a, b)
    decreases |a|
  {
    LastLinksAgree(c, a, b, x, y);
    hide *;
    if !Collides(c, a, b) {
      var m := |a| - 1;
      assert a == a[..m] + [a[m]] && b == b[..m] + [a[m]];
      if m == 0 {
      } else {
        PrefixOfChain(c, a, x);
        PrefixOfChain(c, b, y);
        var cp := Checkpoint(m, a[m].Previous(), false);
        EqualHeadsEqualChains(c, a[..m], b[..m], cp, cp);
        if a[..m] != b[..m] {
          CollidesUpward(c, a, b, m, m);
        }
      }
    }
  }

  /** Commitment: if two stores, after any two runs, hold the same head digest
      for a key, they accepted the identical sequence of revisions -- or the runs
      exhibit a hash collision between two accepted revisions. */
  lemma HeadCommitsToHistory(c: Suite, run1: seq<Offer>, run2: seq<Offer>, key: Key)
    requires RunStore(c, EMPTY_STORE, run1).At(key).Some? && RunStore(c, EMPTY_STORE, run2).At(key).Some?
    requires RunStore(c, EMPTY_STORE, run1).At(key).value.digest == RunStore(c, EMPTY_STORE, run2).At(key).value.digest
    ensures History(c, EMPTY_STORE, run1, key) == History(c, EMPTY_STORE, run2, key)
            || Collides(c, History(c, EMPTY_STORE, run1, key), History(c, EMPTY_STORE, run2, key))
  {
    HeadEndsItsHistory(c, run1, key);
    HeadEndsItsHistory(c, run2, key);
    EqualHeadsEqualChains(c, History(c, EMPTY_STORE, run1, key), History(c, EMPTY_STORE, run2, key),
                          RunStore(c, EMPTY_STORE, run1).At(key).value, RunStore(c, EMPTY_STORE, run2).At(key).value);
  }

  lemma {:induction false} HistoryAppends(c: Suite, s: Store, run: seq<Offer>, more: seq<Offer>, key: Key)
    ensures RunStore(c, s, run + more) == RunStore(c, RunStore(c, s, run), more)
    ensures History(c, s, run + more, key) == History(c, s, run, key) + History(c, RunStore(c, s, run), more, key)
    decreases |run|
  {
    hide StoreStep, Added;
    if run == [] {
      assert run + more == more;
    } else {
      assert (run + more)[0] == run[0] && (run + more)[1..] == run[1..] + more;
      HistoryAppends(c, StoreStep(c, s, run[0]), run[1..], more, key);
    }
  }

  /** Once two stores differ at some sequence number, no continuation of either
      can make them agree on a head again. */
  lemma ForksNeverHeal(c: Suite, run1: seq<Offer>, more1: seq<Offer>, run2: seq<Offer>, more2: seq<Offer>, key: Key, n: nat)
    requires n < |History(c, EMPTY_STORE, run1, key)| && n < |History(c, EMPTY_STORE, run2, key)|
    requires History(c, EMPTY_STORE, run1, key)[n] != History(c, EMPTY_STORE, run2, key)[n]
    ensures var h1, h2 := History(c, EMPTY_STORE, run1 + more1, key), History(c, EMPTY_STORE, run2 + more2, key);
      var head1, head2 := RunStore(c, EMPTY_STORE, run1 + more1).At(key), RunStore(c, EMPTY_STORE, run2 + more2).At(key);
      head1.Some? && head2.Some? && (head1.value.digest != head2.value.digest || Collides(c, h1, h2))
  {
    HistoryAppends(c, EMPTY_STORE, run1, more1, key);
    HistoryAppends(c, EMPTY_STORE, run2, more2, key);
    HeadEndsItsHistory(c, run1 + more1, key);
    HeadEndsItsHistory(c, run2 + more2, key);
    var head1, head2 := RunStore(c, EMPTY_STORE, run1 + more1).At(key), RunStore(c, EMPTY_STORE, run2 + more2).At(key);
    if head1.value.digest == head2.value.digest {
      HeadCommitsToHistory(c, run1 + more1, run2 + more2, key);
      assert History(c, EMPTY_STORE, run1 + more1, key)[n] != History(c, EMPTY_STORE, run2 + more2, key)[n];
    }
  }

  // ----- Lookups return heads -----

  function StoredAt(s: Store, key: Key): Option<Revision> {
    match key
    case DescriptorKey(n) => if n in s.descriptors then Some(OfDescriptor(s.descriptors[n].stored)) else None
    case ReachabilityKey(n) => if n in s.reachability then Some(OfReachability(s.reachability[n].stored)) else None
    case HumanKey(h, n) => if (h, n) in s.humanDevices then Some(s.humanDevices[(h, n)].stored) else None
  }

  function Last(h: seq<Revision>): Option<Revision> {
    if h == [] then None else Some(h[|h| - 1])
  }

  lemma StepStoresLast(c: Suite, s: Store, o: Offer, key: Key, h: seq<Revision>)
    requires StoredAt(s, key) == Last(h)
    ensures StoredAt(StoreStep(c, s, o), key) == Last(h + Added(c, s, o, key))
  {
    hide StoreVerdict;
    assert h + [] == h;
  }

  lemma {:induction false} RunStoresLast(c: Suite, s: Store, run: seq<Offer>, key: Key, h: seq<Revision>)
    requires StoredAt(s, key) == Last(h)
    ensures StoredAt(RunStore(c, s, run), key) == Last(h + History(c, s, run, key))
    decreases |run|
  {
    hide StoredAt, Added, StoreStep;
    if run == [] {
      assert h + [] == h;
    } else {
      var added := Added(c, s, run[0], key);
      StepStoresLast(c, s, run[0], key, h);
      RunStoresLast(c, StoreStep(c, s, run[0]), run[1..], key, h + added);
      assert h + added + History(c, StoreStep(c, s, run[0]), run[1..], key) == h + History(c, s, run, key);
    }
  }

  /** The object kept under a key is the last revision accepted for it. */
  lemma StoredIsLast(c: Suite, run: seq<Offer>, key: Key)
    ensures StoredAt(RunStore(c, EMPTY_STORE, run), key) == Last(History(c, EMPTY_STORE, run, key))
  {
    RunStoresLast(c, EMPTY_STORE, run, key, []);
    assert [] + History(c, EMPTY_STORE, run, key) == History(c, EMPTY_STORE, run, key);
  }

  /** A grant that a lookup returns is the latest revision of its pair, verifies
      under the node's latest descriptor, and was issued for exactly that one. */
  lemma GrantIsCurrent(c: Suite, run: seq<Offer>, humanId: string, nodeId: string, now: int)
    requires var r := GrantLookup(c, RunStore(c, EMPTY_STORE, run), humanId, nodeId, now); r.Ok? && r.value.Some?
    ensures var g := GrantLookup(c, RunStore(c, EMPTY_STORE, run), humanId, nodeId, now).value.value;
      && Last(History(c, EMPTY_STORE, run, HumanKey(humanId, nodeId))) == Some(OfGrant(g))
      && exists d :: Last(History(c, EMPTY_STORE, run, DescriptorKey(nodeId))) == Some(OfDescriptor(d))
                     && d.Verifies(c, now) && g.Verifies(c, d, now)
  {
    var s := RunStore(c, EMPTY_STORE, run);
    StoredIsLast(c, run, HumanKey(humanId, nodeId));
    StoredIsLast(c, run, DescriptorKey(nodeId));
    DescriptorsKeyed(c, run);
    var d := s.descriptors[nodeId].stored;
    assert Last(History(c, EMPTY_STORE, run, DescriptorKey(nodeId))) == Some(OfDescriptor(d));
  }

  /** The same for a reachability record, which has not expired either. */
  lemma ReachabilityIsCurrent(c: Suite, run: seq<Offer>, nodeId: string, now: int)
    requires var r := ReachabilityLookup(c, RunStore(c, EMPTY_STORE, run), nodeId, now); r.Ok? && r.value.Some?
    ensures var x := ReachabilityLookup(c, RunStore(c, EMPTY_STORE, run), nodeId, now).value.value;
      && Last(History(c, EMPTY_STORE, run, ReachabilityKey(nodeId))) == Some(OfReachability(x))
      && exists d :: Last(History(c, EMPTY_STORE, run, DescriptorKey(nodeId))) == Some(OfDescriptor(d))
                     && d.Verifies(c, now) && x.Verifies(c, d, now)
  {
    var s := RunStore(c, EMPTY_STORE, run);
    StoredIsLast(c, run, ReachabilityKey(nodeId));
    StoredIsLast(c, run, DescriptorKey(nodeId));
    DescriptorsKeyed(c, run);
    var d := s.descriptors[nodeId].stored;
    assert Last(History(c, EMPTY_STORE, run, DescriptorKey(nodeId))) == Some(OfDescriptor(d));
  }

  // ----- Revocation is final -----

  ghost predicate RowsConsistent(s: Store) {
    forall k :: k in s.humanDevices ==>
      (s.humanDevices[k].terminal <==> s.humanDevices[k].eventType == "revocation")
  }

  lemma {:induction false} RunKeepsRowsConsistent(c: Suite, s: Store, run: seq<Offer>)
    requires RowsConsistent(s)
    ensures RowsConsistent(RunStore(c, s, run))
    decreases |run|
  {
    if run == [] {
    } else {
      assert |"grant"| != |"revocation"|;
      RunKeepsRowsConsistent(c, StoreStep(c, s, run[0]), run[1..]);
    }
  }

  lemma {:induction false} TerminalIsFrozen(c: Suite, s: Store, run: seq<Offer>, humanId: string, nodeId: string)
    requires IsRevoked(s, humanId, nodeId)
    ensures IsRevoked(RunStore(c, s, run), humanId, nodeId)
    ensures RunStore(c, s, run).humanDevices[(humanId, nodeId)] == s.humanDevices[(humanId, nodeId)]
    ensures History(c, s, run, HumanKey(humanId, nodeId)) == []
    decreases |run|
  {
    if run == [] {
    } else {
      var r := run[0].revision;
      if KeyOf(r) == HumanKey(humanId, nodeId) {
        assert run[0].IsHumanEvent();
        assert StoreVerdict(c, s, run[0]) != Accepted;
      }
      TerminalIsFrozen(c, StoreStep(c, s, run[0]), run[1..], humanId, nodeId);
    }
  }

  /** After an accepted revocation nothing is accepted for the pair any more, no
      lookup returns a grant for it, and it stays reported as revoked. */
  lemma RevocationIsFinal(c: Suite, before: seq<Offer>, o: Offer, after: seq<Offer>, later: Offer, now: int)
    requires o.revision.OfRevocation?
    requires StoreVerdict(c, RunStore(c, EMPTY_STORE, before), o) == Accepted
    requires KeyOf(later.revision) == KeyOf(o.revision)
    ensures var v := o.revision.revocation;
      var s := RunStore(c, StoreStep(c, RunStore(c, EMPTY_STORE, before), o), after);
      && StoreVerdict(c, s, later) != Accepted
      && IsRevoked(s, v.humanId, v.deviceNodeId)
      && (GrantLookup(c, s, v.humanId, v.deviceNodeId, now).Ok? ==>
            GrantLookup(c, s, v.humanId, v.deviceNodeId, now).value.None?)
  {
    var v := o.revision.revocation;
    var s0 := StoreStep(c, RunStore(c, EMPTY_STORE, before), o);
    TerminalIsFrozen(c, s0, after, v.humanId, v.deviceNodeId);
    var s := RunStore(c, s0, after);
    TerminalIsFrozen(c, s, [later], v.humanId, v.deviceNodeId);
    assert s.humanDevices[(v.humanId, v.deviceNodeId)].eventType == "revocation";
    assert |"grant"| != |"revocation"|;
    DescriptorsKeyed(c, before + [o] + after);
    HistoryAppends(c, EMPTY_STORE, before + [o], after, KeyOf(o.revision));
    HistoryAppends(c, EMPTY_STORE, before, [o], KeyOf(o.revision));
  }

  lemma {:induction false} RunKeepsDescriptorsKeyed(c: Suite, s: Store, run: seq<Offer>)
    requires forall n :: n in s.descriptors ==> s.descriptors[n].stored.nodeId == n
    ensures forall n :: n in RunStore(c, s, run).descriptors ==> RunStore(c, s, run).descriptors[n].stored.nodeId == n
    decreases |run|
  {
    if run == [] {
    } else {
      RunKeepsDescriptorsKeyed(c, StoreStep(c, s, run[0]), run[1..]);
    }
  }

  lemma DescriptorsKeyed(c: Suite, run: seq<Offer>)
    ensures forall n :: n in RunStore(c, EMPTY_STORE, run).descriptors ==>
      RunStore(c, EMPTY_STORE, run).descriptors[n].stored.nodeId == n
  {
    RunKeepsDescriptorsKeyed(c, EMPTY_STORE, run);
  }

  // ----- The objects -----

  class ControlPlaneRevisionTracker {
    const suite: Suite
    var descriptors: map<string, Checkpoint>
    var reachability: map<string, Checkpoint>
    var humanDevices: map<(string, string), Checkpoint>

    ghost function State(): Tracker
      reads this
    {
      Tracker(descriptors, reachability, humanDevices)
    }

    constructor (suite: Suite)
      ensures this.suite == suite && State() == EMPTY_TRACKER
    {
      this.suite := suite;
      descriptors, reachability, humanDevices := map[], map[], map[];
    }

    /** Moves the checkpoint of `key`, or says why not. */
    static method Advance<K(==)>(checkpoints: map<K, Checkpoint>, key: K, sequence: int, previous: Bytes, digest: Bytes,
                                 terminal: bool, forbidAfterTerminal: bool)
      returns (after: map<K, Checkpoint>, verdict: Verdict)
      ensures var current := if key in checkpoints then Some(checkpoints[key]) else None;
        && verdict == Judge(current, sequence, previous, digest, forbidAfterTerminal)
        && after == if verdict == Accepted then checkpoints[key := Checkpoint(sequence, digest, terminal)] else checkpoints
    {
      after := checkpoints;
      if key !in checkpoints {
        if sequence != 1 || previous != GENESIS_DIGEST {
          return after, Rejected;
        }
      } else {
        var current := checkpoints[key];
        if sequence == current.sequence {
          return after, if digest == current.digest then Unchanged else Rejected;
        }
        if sequence < current.sequence {
          return after, Rejected;
        }
        if forbidAfterTerminal && current.terminal {
          return after, Rejected;
        }
        if sequence != current.sequence + 1 {
          return after, Rejected;
        }
        if previous != current.digest {
          return after, Rejected;
        }
      }
      after := checkpoints[key := Checkpoint(sequence, digest, terminal)];
      verdict := Accepted;
    }

    method AcceptDescriptor(d: NodeDescriptor, now: int) returns (verdict: Verdict)
      modifies this
      ensures verdict == TrackerVerdict(suite, old(State()), Offer(OfDescriptor(d), d, now))
      ensures State() == TrackerStep(suite, old(State()), Offer(OfDescriptor(d), d, now))
    {
      if !d.Verifies(suite, now) {
        return Rejected;
      }
      descriptors, verdict := Advance(descriptors, d.nodeId, d.sequence, d.previousDigest, d.Digest(suite), false, false);
    }

    method AcceptReachability(r: ReachabilityRecord, d: NodeDescriptor, now: int) returns (verdict: Verdict)
      modifies this
      ensures verdict == TrackerVerdict(suite, old(State()), Offer(OfReachability(r), d, now))
      ensures State() == TrackerStep(suite, old(State()), Offer(OfReachability(r), d, now))
    {
      if !r.Verifies(suite, d, now) || d.nodeId !in descriptors || descriptors[d.nodeId].digest != d.Digest(suite) {
        return Rejected;
      }
      reachability, verdict := Advance(reachability, r.nodeId, r.sequence, r.previousDigest, r.Digest(suite), false, false);
    }

    method AcceptHumanGrant(g: HumanDeviceGrant, d: NodeDescriptor, now: int) returns (verdict: Verdict)
      modifies this
      ensures verdict == TrackerVerdict(suite, old(State()), Offer(OfGrant(g), d, now))
      ensures State() == TrackerStep(suite, old(State()), Offer(OfGrant(g), d, now))
    {
      if !g.Verifies(suite, d, now) || d.nodeId !in descriptors || descriptors[d.nodeId].digest != d.Digest(suite) {
        return Rejected;
      }
      humanDevices, verdict := Advance(humanDevices, (g.humanId, g.deviceNodeId), g.sequence, g.previousDigest,
                                       g.Digest(suite), false, true);
    }

    method AcceptHumanRevocation(v: HumanDeviceRevocation, d: NodeDescriptor, now: int) returns (verdict: Verdict)
      modifies this
      ensures verdict == TrackerVerdict(suite, old(State()), Offer(OfRevocation(v), d, now))
      ensures State() == TrackerStep(suite, old(State()), Offer(OfRevocation(v), d, now))
    {
      if !v.Verifies(suite, d, now) || d.nodeId !in descriptors || descriptors[d.nodeId].digest != d.Digest(suite) {
        return Rejected;
      }
      var key := (v.humanId, v.deviceNodeId);
      if key !in humanDevices {
        return Rejected;
      }
      humanDevices, verdict := Advance(humanDevices, key, v.sequence, v.previousDigest, v.Digest(suite), true, true);
    }
  }

  class ControlPlaneStore {
    const suite: Suite
    var descriptors: map<string, DescriptorRow>
    var reachability: map<string, ReachabilityRow>
    var humanDevices: map<(string, string), HumanRow>

    ghost function State(): Store
      reads this
    {
      Store(descriptors, reachability, humanDevices)
    }

    constructor (suite: Suite)
      ensures this.suite == suite && State() == EMPTY_STORE
    {
      this.suite := suite;
      descriptors, reachability, humanDevices := map[], map[], map[];
    }

    static method CheckRevision(current: Option<Checkpoint>, sequence: int, previous: Bytes, digest: Bytes,
                                forbidAfterTerminal: bool)
      returns (verdict: Verdict)
      ensures verdict == Judge(current, sequence, previous, digest, forbidAfterTerminal)
    {
      if current.None? {
        return if sequence != 1 || previous != GENESIS_DIGEST then Rejected else Accepted;
      }
      var currentSequence, currentDigest := current.value.sequence, current.value.digest;
      if sequence == currentSequence {
        return if digest == currentDigest then Unchanged else Rejected;
      }
      if sequence < currentSequence || (forbidAfterTerminal && current.value.terminal)
         || sequence != currentSequence + 1 || previous != currentDigest {
        return Rejected;
      }
      return Accepted;
    }

    method AcceptDescriptor(d: NodeDescriptor, now: int) returns (verdict: Verdict)
      modifies this
      ensures verdict == StoreVerdict(suite, old(State()), Offer(OfDescriptor(d), d, now))
      ensures State() == StoreStep(suite, old(State()), Offer(OfDescriptor(d), d, now))
    {
      if !d.Verifies(suite, now) {
        return Rejected;
      }
      var current := None;
      if d.nodeId in descriptors {
        current := Some(Checkpoint(descriptors[d.nodeId].sequence, descriptors[d.nodeId].digest, false));
      }
      verdict := CheckRevision(current, d.sequence, d.previousDigest, d.Digest(suite), false);
      if verdict == Accepted {
        descriptors := descriptors[d.nodeId := DescriptorRow(d.sequence, d.Digest(suite), d)];
      }
    }

    method AcceptReachability(r: ReachabilityRecord, d: NodeDescriptor, now: int) returns (verdict: Verdict)
      modifies this
      ensures verdict == StoreVerdict(suite, old(State()), Offer(OfReachability(r), d, now))
      ensures State() == StoreStep(suite, old(State()), Offer(OfReachability(r), d, now))
    {
      if !r.Verifies(suite, d, now) || d.nodeId !in descriptors || descriptors[d.nodeId].digest != d.Digest(suite) {
        return Rejected;
      }
      var current := None;
      if r.nodeId in reachability {
        current := Some(Checkpoint(reachability[r.nodeId].sequence, reachability[r.nodeId].digest, false));
      }
      verdict := CheckRevision(current, r.sequence, r.previousDigest, r.Digest(suite), false);
      if verdict == Accepted {
        reachability := reachability[r.nodeId :=
          ReachabilityRow(r.sequence, r.Digest(suite), r.descriptorDigest, r.expiresMs, r)];
      }
    }

    method AcceptHumanGrant(g: HumanDeviceGrant, d: NodeDescriptor, now: int) returns (verdict: Verdict)
      modifies this
      ensures verdict == StoreVerdict(suite, old(State()), Offer(OfGrant(g), d, now))
      ensures State() == StoreStep(suite, old(State()), Offer(OfGrant(g), d, now))
    {
      if !g.Verifies(suite, d, now) || d.nodeId !in descriptors || descriptors[d.nodeId].digest != d.Digest(suite) {
        return Rejected;
      }
      var key, current := (g.humanId, g.deviceNodeId), None;
      if key in humanDevices {
        current := Some(Checkpoint(humanDevices[key].sequence, humanDevices[key].digest, humanDevices[key].terminal));
      }
      verdict := CheckRevision(current, g.sequence, g.previousDigest, g.Digest(suite), true);
      if verdict == Accepted {
        humanDevices := humanDevices[key :=
          HumanRow(g.sequence, g.Digest(suite), g.descriptorDigest, false, "grant", OfGrant(g))];
      }
    }

    method AcceptHumanRevocation(v: HumanDeviceRevocation, d: NodeDescriptor, now: int) returns (verdict: Verdict)
      modifies this
      ensures verdict == StoreVerdict(suite, old(State()), Offer(OfRevocation(v), d, now))
      ensures State() == StoreStep(suite, old(State()), Offer(OfRevocation(v), d, now))
    {
      if !v.Verifies(suite, d, now) || d.nodeId !in descriptors || descriptors[d.nodeId].digest != d.Digest(suite) {
        return Rejected;
      }
      var key := (v.humanId, v.deviceNodeId);
      if key !in humanDevices {
        return Rejected;
      }
      var current := Checkpoint(humanDevices[key].sequence, humanDevices[key].digest, humanDevices[key].terminal);
      verdict := CheckRevision(Some(current), v.sequence, v.previousDigest, v.Digest(suite), true);
      if verdict == Accepted {
        humanDevices := humanDevices[key :=
          HumanRow(v.sequence, v.Digest(suite), v.descriptorDigest, true, "revocation", OfRevocation(v))];
      }
    }

    method Descriptor(nodeId: string, now: int) returns (r: Result<Option<NodeDescriptor>>)
      ensures r == CurrentDescriptor(suite, State(), nodeId, now)
    {
      if !IsNodeId(nodeId) {
        return Err(ValueError);
      }
      if nodeId !in descriptors {
        return Ok(None);
      }
      var d := descriptors[nodeId].stored;
      return if d.Verifies(suite, now) then Ok(Some(d)) else Err(ValueError);
    }

    method Reachability(nodeId: string, now: int) returns (r: Result<Option<ReachabilityRecord>>)
      ensures r == ReachabilityLookup(suite, State(), nodeId, now)
    {
      var descriptor := Descriptor(nodeId, now);
      if descriptor.Err? {
        return Err(descriptor.error);
      }
      if descriptor.value.None? || descriptor.value.value.nodeId !in reachability {
        return Ok(None);
      }
      var d := descriptor.value.value;
      var row := reachability[d.nodeId];
      if row.expiresMs <= now || row.descriptorDigest != d.Digest(suite) {
        return Ok(None);
      }
      return if row.stored.Verifies(suite, d, now) then Ok(Some(row.stored)) else Err(ValueError);
    }

    method Grant(humanId: string, deviceNodeId: string, now: int) returns (r: Result<Option<HumanDeviceGrant>>)
      ensures r == GrantLookup(suite, State(), humanId, deviceNodeId, now)
    {
      var descriptor := Descriptor(deviceNodeId, now);
      if descriptor.Err? {
        return Err(descriptor.error);
      }
      if descriptor.value.None? {
        return Ok(None);
      }
      if !IsHumanId(humanId) {
        return Err(ValueError);
      }
      var d := descriptor.value.value;
      var key := (humanId, d.nodeId);
      if key !in humanDevices || humanDevices[key].eventType != "grant"
         || humanDevices[key].descriptorDigest != d.Digest(suite)
      {
        return Ok(None);
      }
      var stored := humanDevices[key].stored;
      return if stored.OfGrant? && stored.grant.Verifies(suite, d, now) then Ok(Some(stored.grant)) else Err(ValueError);
    }
  }
}
