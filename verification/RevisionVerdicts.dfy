/** What the stores of the control plane accept and return, told by the accepted
    histories alone: signatures and windows are spelled out over the primitives. */
module RevisionVerdicts {
  import opened Basics
  import opened Crypto
  import opened ControlObjects
  import opened RevisionChain

  // ----- Genuine objects, over the primitives -----

  /** Issued no more than five minutes ahead, not expired, and not too long-lived. */
  ghost predicate OpenAt(issuedMs: int, expiresMs: int, now: int, ttlDays: int) {
    0 < issuedMs <= now + 5 * 60_000 && now < expiresMs && issuedMs < expiresMs <= issuedMs + ttlDays * 86_400_000
  }

  /** In ascending order, so each once, and as many as are allowed. */
  ghost predicate IsSet(values: seq<string>, least: nat, most: nat) {
    least <= |values| <= most && forall i, j :: 0 <= i < j < |values| ==> TextLess(values[i], values[j])
  }

  ghost predicate AreCapabilities(values: seq<string>, least: nat) {
    IsSet(values, least, 64) && forall x :: x in values ==> IsCapability(x)
  }

  /** Printable, and not too long. */
  ghost predicate IsLabel(text: string) {
    |text| <= 64 && forall i :: 0 <= i < |text| ==> text[i] >= ' '
  }

  /** The first revision, and no other, names thirty-two zero bytes. */
  ghost predicate IsNumbered(sequence: int, previous: Bytes) {
    sequence >= 1 && |previous| == 32 && (sequence == 1 <==> forall i :: 0 <= i < 32 ==> previous[i] == 0)
  }

  lemma {:induction false} SortedIff(values: seq<string>)
    ensures StrictlySorted(values) <==> forall i, j :: 0 <= i < j < |values| ==> TextLess(values[i], values[j])
  {
    hide TextLess;
    if values == [] {
    } else {
      var init, n := values[..|values| - 1], |values| - 1;
      SortedIff(init);
      if StrictlySorted(values) {
        assert forall i :: 0 <= i < |init| - 1 ==> TextLess(values[i], values[i + 1]);
        forall i | 0 <= i < n ensures TextLess(values[i], values[n]) {
          assert TextLess(values[n - 1], values[n - 1 + 1]);
          if i < n - 1 {
            assert TextLess(init[i], init[n - 1]);
            TextLessTransitive(values[i], values[n - 1], values[n]);
          }
        }
      }
    }
  }

  lemma CapabilitiesIff(values: seq<string>, allowEmpty: bool)
    ensures CapabilitiesOk(values, allowEmpty) <==> AreCapabilities(values, if allowEmpty then 0 else 1)
  {
    SortedIff(values);
    hide StrictlySorted, IsCapability, TextLess;
  }

  lemma VersionsIff(values: seq<string>)
    ensures ProtocolVersionsOk(values) <==> IsSet(values, 1, 16) && forall x :: x in values ==> IsToken(x)
  {
    SortedIff(values);
    hide StrictlySorted, IsToken, TextLess;
  }

  lemma CandidatesIff(c: Suite, values: seq<string>)
    ensures CandidatesOk(c, values) <==> IsSet(values, 0, 16) && forall x :: x in values ==> c.locatorOk(x)
  {
    SortedIff(values);
    hide StrictlySorted, TextLess;
  }

  lemma LabelIff(text: string)
    ensures LabelOk(text) <==> IsLabel(text)
  {
  }

  lemma NumberedIff(sequence: int, previous: Bytes)
    ensures RevisionOk(sequence, previous) <==> IsNumbered(sequence, previous)
  {
    if |previous| == 32 && forall i :: 0 <= i < 32 ==> previous[i] == 0 {
      assert previous == GENESIS_DIGEST;
    }
  }

  /** The key pair of the node id signed the descriptor. */
  ghost predicate DescriptorIsSigned(c: Suite, d: NodeDescriptor) {
    && |d.signPublic| == 32 && |d.boxPublic| == 32 && |d.signature| == 64
    && c.nodeId(d.signPublic, d.boxPublic) == d.nodeId
    && c.verify(d.signPublic, d.SigningFields(), d.signature)
  }

  ghost predicate DescriptorHolds(c: Suite, d: NodeDescriptor, now: int) {
    && DescriptorIsSigned(c, d) && OpenAt(d.issuedMs, d.expiresMs, now, 366)
    && d.version == 2 && d.objectType == "anet.node-descriptor.v2" && IsNodeId(d.nodeId)
    && IsLabel(d.nodeLabel) && AreCapabilities(d.capabilities, 0) && IsNumbered(d.sequence, d.previousDigest)
  }

  /** The node of the descriptor signed the record, for exactly this descriptor. */
  ghost predicate RecordIsSigned(c: Suite, r: ReachabilityRecord, d: NodeDescriptor) {
    && r.nodeId == d.nodeId && r.descriptorDigest == d.Digest(c) && |r.descriptorDigest| == 32 && |r.signature| == 64
    && c.verify(d.signPublic, r.SigningFields(), r.signature)
  }

  ghost predicate RecordHolds(c: Suite, r: ReachabilityRecord, d: NodeDescriptor, now: int) {
    && DescriptorHolds(c, d, now) && RecordIsSigned(c, r, d)
    && 0 < r.issuedMs <= now + 5 * 60_000 && now < r.expiresMs && r.issuedMs < r.expiresMs <= r.issuedMs + 15 * 60_000
    && r.version == 1 && r.objectType == "anet.reachability.v1" && IsHexId(r.sessionId)
    && IsSet(r.protocolVersions, 1, 16) && (forall x :: x in r.protocolVersions ==> IsToken(x))
    && IsSet(r.candidates, 0, 16) && (forall x :: x in r.candidates ==> c.locatorOk(x)) && |r.capabilityDigest| == 32
    && (r.relayReservation == "" || IsOpaque(r.relayReservation)) && IsNumbered(r.sequence, r.previousDigest)
  }

  /** The key of the human id, which is not the node's, signed for this descriptor. */
  ghost predicate HumanSigned(c: Suite, humanId: string, human: Bytes, node: string, digest: Bytes, fields: Fields,
                              signature: Bytes, d: NodeDescriptor)
  {
    && |human| == 32 && c.humanId(human) == humanId && human != d.signPublic
    && node == d.nodeId && digest == d.Digest(c) && |digest| == 32 && |signature| == 64
    && c.verify(human, fields, signature)
  }

  ghost predicate GrantHolds(c: Suite, g: HumanDeviceGrant, d: NodeDescriptor, now: int) {
    && DescriptorHolds(c, d, now)
    && HumanSigned(c, g.humanId, g.humanSignPublic, g.deviceNodeId, g.descriptorDigest, g.SigningFields(), g.signature, d)
    && OpenAt(g.issuedMs, g.expiresMs, now, 90)
    && g.version == 1 && g.objectType == "anet.human-device-grant.v1" && IsHumanId(g.humanId)
    && AreCapabilities(g.capabilities, 1) && IsNumbered(g.sequence, g.previousDigest)
  }

  ghost predicate RevocationHolds(c: Suite, v: HumanDeviceRevocation, d: NodeDescriptor, now: int) {
    && DescriptorHolds(c, d, now)
    && HumanSigned(c, v.humanId, v.humanSignPublic, v.deviceNodeId, v.descriptorDigest, v.SigningFields(), v.signature, d)
    && 0 < v.revokedMs <= now + 5 * 60_000
    && v.version == 1 && v.objectType == "anet.human-device-revocation.v1" && IsHumanId(v.humanId)
    && IsToken(v.reasonCode) && IsNumbered(v.sequence, v.previousDigest)
  }

  ghost predicate OfferHolds(c: Suite, o: Offer) {
    match o.revision
    case OfDescriptor(d) => DescriptorHolds(c, d, o.now)
    case OfReachability(r) => RecordHolds(c, r, o.descriptor, o.now)
    case OfGrant(g) => GrantHolds(c, g, o.descriptor, o.now)
    case OfRevocation(v) => RevocationHolds(c, v, o.descriptor, o.now)
  }

  lemma DescriptorHoldsIff(c: Suite, d: NodeDescriptor, now: int)
    ensures d.Verifies(c, now) <==> DescriptorHolds(c, d, now)
  {
    LabelIff(d.nodeLabel);
    CapabilitiesIff(d.capabilities, true);
    NumberedIff(d.sequence, d.previousDigest);
    hide LabelOk, CapabilitiesOk, RevisionOk, IsNodeId, NodeDescriptor.SigningFields, IsLabel, AreCapabilities, IsNumbered;
  }

  lemma OfferHoldsIff(c: Suite, o: Offer)
    ensures o.Verifies(c) <==> OfferHolds(c, o)
  {
    hide LabelOk, CapabilitiesOk, RevisionOk, IsNodeId, IsHumanId, IsToken, IsHexId, ProtocolVersionsOk, CandidatesOk, IsOpaque;
    hide IsLabel, AreCapabilities, IsNumbered, IsSet;
    hide NodeDescriptor.SigningFields, HumanDeviceGrant.SigningFields, ReachabilityRecord.SigningFields;
    hide HumanDeviceRevocation.SigningFields, NodeDescriptor.Digest, NodeDescriptor.Verifies, DescriptorIsSigned;
    match o.revision
    case OfDescriptor(d) => DescriptorHoldsIff(c, d, o.now);
    case OfReachability(r) =>
      DescriptorHoldsIff(c, o.descriptor, o.now);
      VersionsIff(r.protocolVersions);
      CandidatesIff(c, r.candidates);
      NumberedIff(r.sequence, r.previousDigest);
    case OfGrant(g) =>
      DescriptorHoldsIff(c, o.descriptor, o.now);
      CapabilitiesIff(g.capabilities, false);
      NumberedIff(g.sequence, g.previousDigest);
    case OfRevocation(v) =>
      DescriptorHoldsIff(c, o.descriptor, o.now);
      NumberedIff(v.sequence, v.previousDigest);
  }

  // ----- What a row remembers of its object -----

  ghost predicate RowsTell(c: Suite, s: Store) {
    && (forall n :: n in s.descriptors ==> DescriptorRowTells(c, n, s.descriptors[n]))
    && (forall n :: n in s.reachability ==> ReachabilityRowTells(c, n, s.reachability[n]))
    && (forall k :: k in s.humanDevices ==> HumanRowTells(c, k, s.humanDevices[k]))
  }

  ghost predicate DescriptorRowTells(c: Suite, n: string, row: DescriptorRow) {
    row.stored.nodeId == n && row.digest == row.stored.Digest(c) && IsNodeId(n)
  }

  ghost predicate ReachabilityRowTells(c: Suite, n: string, row: ReachabilityRow) {
    row.stored.nodeId == n && row.expiresMs == row.stored.expiresMs && row.descriptorDigest == row.stored.descriptorDigest
  }

  ghost predicate HumanRowTells(c: Suite, k: (string, string), row: HumanRow) {
    match row.stored
    case OfGrant(g) =>
      k == (g.humanId, g.deviceNodeId) && !row.terminal && row.eventType == "grant" && row.descriptorDigest == g.descriptorDigest
      && IsHumanId(g.humanId)
    case OfRevocation(v) => k == (v.humanId, v.deviceNodeId) && row.terminal && row.eventType == "revocation"
    case _ => false
  }

  lemma StepKeepsTelling(c: Suite, s: Store, o: Offer)
    requires RowsTell(c, s)
    ensures RowsTell(c, StoreStep(c, s, o))
  {
    if StoreVerdict(c, s, o) == Accepted {
      OfferHoldsIff(c, o);
      AcceptedIsNamed(c, o);
      hide StoreVerdict, OfferHolds, Offer.Verifies;
      PutKeepsTelling(c, s, o.revision);
    }
  }

  lemma PutKeepsTelling(c: Suite, s: Store, r: Revision)
    requires RowsTell(c, s)
    requires r.OfDescriptor? ==> IsNodeId(r.descriptor.nodeId)
    requires r.OfGrant? ==> IsHumanId(r.grant.humanId)
    ensures RowsTell(c, s.Put(c, r))
  {
    hide IsNodeId, IsHumanId, NodeDescriptor.Digest, ReachabilityRecord.Digest, HumanDeviceGrant.Digest, HumanDeviceRevocation.Digest;
    match r
    case OfDescriptor(_) => hide ReachabilityRowTells, HumanRowTells;
    case OfReachability(_) => hide DescriptorRowTells, HumanRowTells;
    case OfGrant(_) => hide DescriptorRowTells, ReachabilityRowTells;
    case OfRevocation(_) => hide DescriptorRowTells, ReachabilityRowTells;
  }

  lemma AcceptedIsNamed(c: Suite, o: Offer)
    requires OfferHolds(c, o)
    ensures o.revision.OfDescriptor? ==> IsNodeId(o.revision.descriptor.nodeId)
    ensures o.revision.OfGrant? ==> IsHumanId(o.revision.grant.humanId)
  {
    hide IsNodeId, IsHumanId;
  }

  lemma {:induction false} RunKeepsTelling(c: Suite, s: Store, run: seq<Offer>)
    requires RowsTell(c, s)
    ensures RowsTell(c, RunStore(c, s, run))
    decreases |run|
  {
    hide RowsTell, StoreStep;
    if run == [] {
    } else {
      StepKeepsTelling(c, s, run[0]);
      RunKeepsTelling(c, StoreStep(c, s, run[0]), run[1..]);
    }
  }

  lemma RowsAlwaysTell(c: Suite, run: seq<Offer>)
    ensures RowsTell(c, RunStore(c, EMPTY_STORE, run))
  {
    RunKeepsTelling(c, EMPTY_STORE, run);
  }

  // ----- Which offers are accepted -----

  ghost function Accepteds(c: Suite, run: seq<Offer>, key: Key): seq<Revision> {
    History(c, EMPTY_STORE, run, key)
  }

  /** The descriptor offered along is, by digest, the last one accepted for its node. */
  ghost predicate NamesLatest(c: Suite, run: seq<Offer>, d: NodeDescriptor) {
    var h := Accepteds(c, run, DescriptorKey(d.nodeId));
    h != [] && h[|h| - 1].Digest(c) == d.Digest(c)
  }

  /** The verdict on any offer after any run, both ways.  It is accepted exactly when
      it is genuine, made for the node's latest descriptor, and next in its chain:
      numbered one more than the chain is long, naming the last digest, not after a
      revocation, and no revocation of nothing.  It is unchanged exactly when it
      repeats the digest and number of the last one. */
  lemma VerdictIff(c: Suite, run: seq<Offer>, o: Offer)
    ensures var h, r := Accepteds(c, run, KeyOf(o.revision)), o.revision;
      var verdict := StoreVerdict(c, RunStore(c, EMPTY_STORE, run), o);
      var valid := OfferHolds(c, o) && (r.OfDescriptor? || NamesLatest(c, run, o.descriptor)) && (h == [] ==> !r.OfRevocation?);
      && (verdict == Accepted <==>
            && valid && r.Sequence() == |h| + 1
            && r.Previous() == (if h == [] then GENESIS_DIGEST else h[|h| - 1].Digest(c))
            && (h != [] ==> !h[|h| - 1].OfRevocation?))
      && (verdict == Unchanged <==> valid && h != [] && r.Sequence() == |h| && r.Digest(c) == h[|h| - 1].Digest(c))
  {
    OfferHoldsIff(c, o);
    HeadIsLast(c, run, KeyOf(o.revision));
    HeadIsLast(c, run, DescriptorKey(o.descriptor.nodeId));
    hide OfferHolds, Offer.Verifies, RunStore, History, Revision.Digest, Revision.Previous, Revision.Sequence;
    BindsAsNamed(c, run, o.descriptor);
    if Accepteds(c, run, KeyOf(o.revision)) != [] {
      HumanKeysOnly(c, run, KeyOf(o.revision));
    }
    hide Store.At, Store.BindsTo, NamesLatest;
  }

  lemma BindsAsNamed(c: Suite, run: seq<Offer>, d: NodeDescriptor)
    ensures RunStore(c, EMPTY_STORE, run).BindsTo(c, d) <==> NamesLatest(c, run, d)
  {
    HeadIsLast(c, run, DescriptorKey(d.nodeId));
    hide RunStore, History, Revision.Digest, NodeDescriptor.Digest;
  }

  /** The head of a chain, told by the chain. */
  lemma HeadIsLast(c: Suite, run: seq<Offer>, key: Key)
    ensures var h := Accepteds(c, run, key);
      RunStore(c, EMPTY_STORE, run).At(key)
      == if h == [] then None else Some(Checkpoint(|h|, h[|h| - 1].Digest(c), h[|h| - 1].OfRevocation?))
  {
    HeadEndsItsHistory(c, run, key);
    StoredIsLast(c, run, key);
    RowsAlwaysTell(c, run);
    hide RunStore, History, Revision.Digest;
  }

  lemma HumanKeysOnly(c: Suite, run: seq<Offer>, key: Key)
    requires Accepteds(c, run, key) != []
    ensures Accepteds(c, run, key)[|Accepteds(c, run, key)| - 1].OfRevocation? ==> key.HumanKey?
  {
    StoredIsLast(c, run, key);
    hide RunStore, History;
  }

  // ----- Everything accepted was offered, signed and bound -----

  /** The offer that put the revision into its chain. */
  lemma {:induction false} AcceptedWasOffered(c: Suite, run: seq<Offer>, key: Key, i: nat) returns (k: nat)
    requires i < |Accepteds(c, run, key)|
    ensures k < |run| && run[k].revision == Accepteds(c, run, key)[i] && KeyOf(run[k].revision) == key
    ensures StoreVerdict(c, RunStore(c, EMPTY_STORE, run[..k]), run[k]) == Accepted
    ensures Accepteds(c, run[..k], key) == Accepteds(c, run, key)[..i]
    decreases |run|
  {
    hide StoreVerdict;
    if run == [] {
      assert false;
    } else {
      var m := |run| - 1;
      var before, added := RunStore(c, EMPTY_STORE, run[..m]), Added(c, RunStore(c, EMPTY_STORE, run[..m]), run[m], key);
      assert run == run[..m] + [run[m]];
      HistoryAppends(c, EMPTY_STORE, run[..m], [run[m]], key);
      OneStepHistory(c, before, run[m], key);
      var prior := Accepteds(c, run[..m], key);
      if i < |prior| {
        k := AcceptedWasOffered(c, run[..m], key, i);
        assert run[..m][..k] == run[..k];
        assert prior[..i] == Accepteds(c, run, key)[..i];
      } else {
        k := m;
        assert Accepteds(c, run, key)[..i] == prior;
      }
    }
  }

  lemma OneStepHistory(c: Suite, s: Store, o: Offer, key: Key)
    ensures History(c, s, [o], key) == Added(c, s, o, key)
  {
    hide Added, StoreStep;
    assert [o][1..] == [];
    assert History(c, StoreStep(c, s, o), [], key) == [];
  }

  /** The key pair of the node id, or the human's own key, signed it. */
  ghost predicate IsSigned(c: Suite, r: Revision, d: NodeDescriptor) {
    match r
    case OfDescriptor(x) => DescriptorIsSigned(c, x)
    case OfReachability(x) => DescriptorIsSigned(c, d) && RecordIsSigned(c, x, d)
    case OfGrant(g) =>
      && DescriptorIsSigned(c, d)
      && HumanSigned(c, g.humanId, g.humanSignPublic, g.deviceNodeId, g.descriptorDigest, g.SigningFields(), g.signature, d)
    case OfRevocation(v) =>
      && DescriptorIsSigned(c, d)
      && HumanSigned(c, v.humanId, v.humanSignPublic, v.deviceNodeId, v.descriptorDigest, v.SigningFields(), v.signature, d)
  }

  /** Every revision in every chain is signed by the key behind its identity, and all
      but descriptors were made for the descriptor that was the latest of their node
      at that time. */
  lemma AcceptedIsSigned(c: Suite, run: seq<Offer>, key: Key, i: nat) returns (k: nat)
    requires i < |Accepteds(c, run, key)|
    ensures k < |run| && run[k].revision == Accepteds(c, run, key)[i]
    ensures IsSigned(c, run[k].revision, run[k].descriptor)
    ensures !run[k].revision.OfDescriptor? ==> NamesLatest(c, run[..k], run[k].descriptor)
  {
    k := AcceptedWasOffered(c, run, key, i);
    VerdictIff(c, run[..k], run[k]);
    hide DescriptorIsSigned, RecordIsSigned, HumanSigned, NamesLatest, StoreVerdict;
  }

  // ----- What the lookups return -----

  ghost function LastOf(c: Suite, run: seq<Offer>, key: Key): Option<Revision> {
    var h := Accepteds(c, run, key);
    if h == [] then None else Some(h[|h| - 1])
  }

  /** An offer of the run was made along with another descriptor of the same digest. */
  ghost predicate DescriptorsCollide(c: Suite, run: seq<Offer>, d: NodeDescriptor) {
    exists k :: 0 <= k < |run| && run[k].descriptor != d && run[k].descriptor.Digest(c) == d.Digest(c)
  }

  ghost predicate IsOpen(d: NodeDescriptor, now: int) {
    d.issuedMs <= now + 5 * 60_000 && now < d.expiresMs
  }

  lemma LatestDescriptorHolds(c: Suite, run: seq<Offer>, node: string, now: int)
    requires LastOf(c, run, DescriptorKey(node)).Some?
    ensures IsNodeId(node)
    ensures var r := LastOf(c, run, DescriptorKey(node)).value;
      r.OfDescriptor? && r.descriptor.nodeId == node && (DescriptorHolds(c, r.descriptor, now) <==> IsOpen(r.descriptor, now))
  {
    var k := AcceptedWasOffered(c, run, DescriptorKey(node), |Accepteds(c, run, DescriptorKey(node))| - 1);
    VerdictIff(c, run[..k], run[k]);
    hide History, StoreVerdict, RunStore, IsLabel, AreCapabilities, IsNumbered, IsNodeId, NamesLatest;
  }

  /** A descriptor is looked up exactly by its window: the last one accepted for the
      node is returned while it is open and refused outside. */
  lemma DescriptorLookupIff(c: Suite, run: seq<Offer>, node: string, now: int)
    ensures CurrentDescriptor(c, RunStore(c, EMPTY_STORE, run), node, now)
            == match LastOf(c, run, DescriptorKey(node))
               case None => if IsNodeId(node) then Ok(None) else Err(ValueError)
               case Some(r) => if r.OfDescriptor? && IsOpen(r.descriptor, now) then Ok(Some(r.descriptor)) else Err(ValueError)
  {
    StoredIsLast(c, run, DescriptorKey(node));
    if LastOf(c, run, DescriptorKey(node)).Some? {
      LatestDescriptorHolds(c, run, node, now);
      DescriptorHoldsIff(c, LastOf(c, run, DescriptorKey(node)).value.descriptor, now);
    }
    hide History, RunStore, IsNodeId, NodeDescriptor.Verifies, DescriptorHolds;
  }

  /** The latest descriptor of the node, while its window is open. */
  ghost function OpenDescriptor(c: Suite, run: seq<Offer>, node: string, now: int): Option<NodeDescriptor> {
    match LastOf(c, run, DescriptorKey(node))
    case Some(OfDescriptor(d)) => if IsOpen(d, now) then Some(d) else None
    case _ => None
  }

  /** What fails before the pair is looked at: no valid node id, or a descriptor
      outside its window. */
  ghost predicate NoDescriptorError(c: Suite, run: seq<Offer>, node: string, now: int) {
    IsNodeId(node) && (LastOf(c, run, DescriptorKey(node)).Some? ==> OpenDescriptor(c, run, node, now).Some?)
  }

  ghost predicate GrantIsOpen(g: HumanDeviceGrant, now: int) {
    g.issuedMs <= now + 5 * 60_000 && now < g.expiresMs
  }

  /** The last revision of the pair is a grant made for this descriptor. */
  ghost predicate BoundGrant(c: Suite, run: seq<Offer>, humanId: string, node: string, d: NodeDescriptor, g: HumanDeviceGrant) {
    LastOf(c, run, HumanKey(humanId, node)) == Some(OfGrant(g)) && g.descriptorDigest == d.Digest(c)
  }

  /** A grant is looked up exactly by its chain and the windows.  It is returned when
      it is the last revision of its pair, made for the node's latest descriptor, and
      both are inside their windows; when only the grant is outside, or the
      descriptor is, the lookup fails; otherwise it finds nothing -- unless two
      descriptors at hand have one digest. */
  lemma GrantLookupIff(c: Suite, run: seq<Offer>, humanId: string, node: string, now: int)
    ensures var r := GrantLookup(c, RunStore(c, EMPTY_STORE, run), humanId, node, now);
      var d := OpenDescriptor(c, run, node, now);
      || (d.Some? && DescriptorsCollide(c, run, d.value))
      || (&& (forall g :: r == Ok(Some(g)) <==> d.Some? && BoundGrant(c, run, humanId, node, d.value, g) && GrantIsOpen(g, now))
          && (r.Err? <==>
                || !NoDescriptorError(c, run, node, now)
                || (d.Some? && !IsHumanId(humanId))
                || (d.Some? && exists g :: BoundGrant(c, run, humanId, node, d.value, g) && !GrantIsOpen(g, now))))
  {
    GrantLookupByLast(c, run, humanId, node, now);
    var d, last := OpenDescriptor(c, run, node, now), LastOf(c, run, HumanKey(humanId, node));
    var bound := d.Some? && last.Some? && last.value.OfGrant? && BoundGrant(c, run, humanId, node, d.value, last.value.grant);
    if bound {
      BoundGrantHolds(c, run, humanId, node, d.value, last.value.grant, now);
    }
    assert d.Some? && !bound ==> forall g :: !BoundGrant(c, run, humanId, node, d.value, g);
    hide OpenDescriptor, NoDescriptorError, GrantLookup, HumanDeviceGrant.Verifies, DescriptorsCollide, GrantIsOpen, IsHumanId;
  }

  /** The lookup reads nothing but the last revisions. */
  lemma GrantLookupByLast(c: Suite, run: seq<Offer>, humanId: string, node: string, now: int)
    ensures var r := GrantLookup(c, RunStore(c, EMPTY_STORE, run), humanId, node, now);
      var d, last := OpenDescriptor(c, run, node, now), LastOf(c, run, HumanKey(humanId, node));
      if d.None? then r == if NoDescriptorError(c, run, node, now) then Ok(None) else Err(ValueError)
      else if !IsHumanId(humanId) then r == Err(ValueError)
      else if last.Some? && last.value.OfGrant? && last.value.grant.descriptorDigest == d.value.Digest(c) then
        r == if last.value.grant.Verifies(c, d.value, now) then Ok(Some(last.value.grant)) else Err(ValueError)
      else r == Ok(None)
  {
    DescriptorLookupIff(c, run, node, now);
    HumanRowIsLast(c, run, humanId, node);
    if LastOf(c, run, DescriptorKey(node)).Some? {
      LatestDescriptorHolds(c, run, node, now);
    }
    assert |"grant"| != |"revocation"|;
    hide RunStore, IsNodeId, IsHumanId, CurrentDescriptor, HumanDeviceGrant.Verifies, LastOf, NodeDescriptor.Digest, DescriptorHolds;
  }

  lemma HumanRowIsLast(c: Suite, run: seq<Offer>, humanId: string, node: string)
    ensures var s, last := RunStore(c, EMPTY_STORE, run), LastOf(c, run, HumanKey(humanId, node));
      if last.None? then (humanId, node) !in s.humanDevices
      else
        && (humanId, node) in s.humanDevices && s.humanDevices[(humanId, node)].stored == last.value
        && HumanRowTells(c, (humanId, node), s.humanDevices[(humanId, node)])
  {
    StoredIsLast(c, run, HumanKey(humanId, node));
    RowsAlwaysTell(c, run);
    hide History, RunStore, HumanRowTells;
  }

  lemma BoundGrantHolds(c: Suite, run: seq<Offer>, humanId: string, node: string, d: NodeDescriptor, g: HumanDeviceGrant, now: int)
    requires OpenDescriptor(c, run, node, now) == Some(d) && BoundGrant(c, run, humanId, node, d, g)
    ensures IsHumanId(humanId)
    ensures (g.Verifies(c, d, now) <==> GrantIsOpen(g, now)) || DescriptorsCollide(c, run, d)
  {
    var key := HumanKey(humanId, node);
    var k := AcceptedWasOffered(c, run, key, |Accepteds(c, run, key)| - 1);
    VerdictIff(c, run[..k], run[k]);
    LatestDescriptorHolds(c, run, node, now);
    OfferHoldsIff(c, Offer(OfGrant(g), d, now));
    hide History, StoreVerdict, RunStore, IsNodeId, NamesLatest, AreCapabilities, IsNumbered, IsHumanId, DescriptorHolds;
    if !DescriptorsCollide(c, run, d) {
      assert run[k].descriptor == d;
    }
  }

  /** A pair is reported as revoked exactly when its last revision is a revocation. */
  lemma RevokedIff(c: Suite, run: seq<Offer>, humanId: string, node: string)
    ensures IsRevoked(RunStore(c, EMPTY_STORE, run), humanId, node)
            <==> LastOf(c, run, HumanKey(humanId, node)).Some? && LastOf(c, run, HumanKey(humanId, node)).value.OfRevocation?
  {
    HumanRowIsLast(c, run, humanId, node);
    hide RunStore, LastOf;
  }

  ghost predicate RecordIsOpen(x: ReachabilityRecord, now: int) {
    x.issuedMs <= now + 5 * 60_000 && now < x.expiresMs
  }

  ghost predicate BoundRecord(c: Suite, run: seq<Offer>, node: string, d: NodeDescriptor, x: ReachabilityRecord) {
    LastOf(c, run, ReachabilityKey(node)) == Some(OfReachability(x)) && x.descriptorDigest == d.Digest(c)
  }

  /** The same for a reachability record, except that an expired one is not found
      rather than refused: only a record from too far ahead is. */
  lemma ReachabilityLookupIff(c: Suite, run: seq<Offer>, node: string, now: int)
    ensures var r := ReachabilityLookup(c, RunStore(c, EMPTY_STORE, run), node, now);
      var d := OpenDescriptor(c, run, node, now);
      || (d.Some? && DescriptorsCollide(c, run, d.value))
      || (&& (forall x :: r == Ok(Some(x)) <==> d.Some? && BoundRecord(c, run, node, d.value, x) && RecordIsOpen(x, now))
          && (r.Err? <==>
                || !NoDescriptorError(c, run, node, now)
                || (d.Some? && exists x :: BoundRecord(c, run, node, d.value, x) && now < x.expiresMs && !RecordIsOpen(x, now))))
  {
    ReachabilityLookupByLast(c, run, node, now);
    var d, last := OpenDescriptor(c, run, node, now), LastOf(c, run, ReachabilityKey(node));
    var bound := d.Some? && last.Some? && last.value.OfReachability? && BoundRecord(c, run, node, d.value, last.value.record);
    if bound {
      BoundRecordHolds(c, run, node, d.value, last.value.record, now);
    }
    assert d.Some? && !bound ==> forall x :: !BoundRecord(c, run, node, d.value, x);
    hide OpenDescriptor, NoDescriptorError, ReachabilityLookup, ReachabilityRecord.Verifies, DescriptorsCollide;
  }

  lemma ReachabilityLookupByLast(c: Suite, run: seq<Offer>, node: string, now: int)
    ensures var r := ReachabilityLookup(c, RunStore(c, EMPTY_STORE, run), node, now);
      var d, last := OpenDescriptor(c, run, node, now), LastOf(c, run, ReachabilityKey(node));
      if d.None? then r == if NoDescriptorError(c, run, node, now) then Ok(None) else Err(ValueError)
      else if last.Some? && last.value.OfReachability? && last.value.record.descriptorDigest == d.value.Digest(c)
              && now < last.value.record.expiresMs
      then r == if last.value.record.Verifies(c, d.value, now) then Ok(Some(last.value.record)) else Err(ValueError)
      else r == Ok(None)
  {
    DescriptorLookupIff(c, run, node, now);
    RecordRowIsLast(c, run, node);
    if LastOf(c, run, DescriptorKey(node)).Some? {
      LatestDescriptorHolds(c, run, node, now);
    }
    hide RunStore, IsNodeId, CurrentDescriptor, ReachabilityRecord.Verifies, LastOf, NodeDescriptor.Digest, DescriptorHolds;
  }

  lemma RecordRowIsLast(c: Suite, run: seq<Offer>, node: string)
    ensures var s, last := RunStore(c, EMPTY_STORE, run), LastOf(c, run, ReachabilityKey(node));
      if last.None? then node !in s.reachability
      else
        && node in s.reachability && OfReachability(s.reachability[node].stored) == last.value
        && ReachabilityRowTells(c, node, s.reachability[node])
  {
    StoredIsLast(c, run, ReachabilityKey(node));
    RowsAlwaysTell(c, run);
    hide History, RunStore, ReachabilityRowTells;
  }

  lemma BoundRecordHolds(c: Suite, run: seq<Offer>, node: string, d: NodeDescriptor, x: ReachabilityRecord, now: int)
    requires OpenDescriptor(c, run, node, now) == Some(d) && BoundRecord(c, run, node, d, x)
    ensures (x.Verifies(c, d, now) <==> RecordIsOpen(x, now)) || DescriptorsCollide(c, run, d)
  {
    var key := ReachabilityKey(node);
    var k := AcceptedWasOffered(c, run, key, |Accepteds(c, run, key)| - 1);
    VerdictIff(c, run[..k], run[k]);
    LatestDescriptorHolds(c, run, node, now);
    OfferHoldsIff(c, Offer(OfReachability(x), d, now));
    hide History, StoreVerdict, RunStore, IsNodeId, NamesLatest, IsNumbered, IsHexId, DescriptorHolds, IsSet, IsOpaque, IsToken;
    if !DescriptorsCollide(c, run, d) {
      assert run[k].descriptor == d;
    }
  }
}
