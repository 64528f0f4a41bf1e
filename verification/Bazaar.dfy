/** The Abazr cooperation demo: signed records enter a bazaar only in the order
    of their lifecycle, so each can be traced back to the need and the offer it
    came from. */
module Bazaar {
  import opened Basics

  // ----- Records -----

  datatype Json =
    | JNull
    | JBool(b: bool)
    | JInt(i: int)
    | JText(s: string)
    | JList(items: seq<Json>)
    | JObject(members: seq<(string, Json)>)

  /** The payload fields the lifecycle knows; anything else is `Other`. */
  datatype Key =
    | Title | Summary | Capability | Tags
    | NeedId | OfferId | RequesterId | ProviderId | Score | Reasons | Authorized
    | MatchId | Terms | ProposalId | AcceptedTermsDigest
    | AgreementId | ArtifactDigest | FulfillmentId | Outcome | Note
    | Other(name: string)

  type Payload = map<Key, Json>

  datatype Kind = Need | Offer | Match | Proposal | Agreement | Fulfillment | Evidence | Unsupported(kind: string)

  datatype Visibility = Private | Circle | Public | Undefined(visibility: string)

  datatype Record = Record(kind: Kind, issuer: string, publicKey: string, visibility: Visibility,
                           createdMs: int, expiresMs: int, nonce: string, payload: Payload, signature: string)

  /** Hashes and signatures, and the configured matcher with its private key. */
  datatype Env = Env(
    recordId: Record -> string,
    // the participant id of an encoded public key, when it decodes
    participant: string -> Option<string>,
    // Ed25519 verification of the record's signature over its other fields
    signed: Record -> bool,
    digest: Json -> string,
    // `str(value)` of anything but text
    repr: Json -> string,
    matcherId: string, matcherKey: string, sign: Record -> string, pairNonce: (string, string) -> string)

  function Show(env: Env, j: Json): string {
    if j.JText? then j.s else env.repr(j)
  }

  function Get(p: Payload, k: Key): Json {
    if k in p then p[k] else JNull
  }

  // ----- Validation -----

  /** What verification checks apart from the clock. */
  predicate Genuine(env: Env, r: Record) {
    && !r.kind.Unsupported? && !r.visibility.Undefined?
    && env.participant(r.publicKey) == Some(r.issuer)
    && env.signed(r)
  }

  predicate Current(r: Record, now: int) {
    r.createdMs <= now < r.expiresMs
  }

  predicate Verifies(env: Env, r: Record, now: int) {
    Genuine(env, r) && Current(r, now)
  }

  const FINANCIAL := ["buyer", "seller", "price", "currency", "token", "wallet", "chain_id", "escrow", "payment"]

  predicate IsFinancialName(name: string) {
    Lower(name) in FINANCIAL
  }

  predicate HasFinancial(j: Json) {
    match j
    case JList(items) => exists i :: 0 <= i < |items| && HasFinancial(items[i])
    case JObject(members) =>
      exists i :: 0 <= i < |members| && (IsFinancialName(members[i].0) || HasFinancial(members[i].1))
    case _ => false
  }

  /** No known field name is a financial one. */
  predicate PayloadHasFinancial(p: Payload) {
    exists k :: k in p && ((k.Other? && IsFinancialName(k.name)) || HasFinancial(p[k]))
  }

  function Shape(kind: Kind): set<Key> {
    match kind
    case Need => {Title, Summary, Capability, Tags}
    case Offer => {Title, Summary, Capability, Tags}
    case Match => {NeedId, OfferId, RequesterId, ProviderId, Score, Reasons, Authorized}
    case Proposal => {MatchId, RequesterId, ProviderId, Terms}
    case Agreement => {ProposalId, RequesterId, ProviderId, AcceptedTermsDigest}
    case Fulfillment => {AgreementId, ArtifactDigest, Summary}
    case Evidence => {AgreementId, FulfillmentId, Outcome, Note}
    case Unsupported(_) => {}
  }

  predicate AreTags(j: Json) {
    j.JList? && forall i :: 0 <= i < |j.items| ==> j.items[i].JText?
  }

  type Records = map<string, Record>

  /** The stored record a field refers to, if it is of the right kind. */
  function Referenced(env: Env, records: Records, p: Payload, k: Key, kind: Kind): Option<Record> {
    var id := Show(env, Get(p, k));
    if id in records && records[id].kind == kind then Some(records[id]) else None
  }

  predicate LifecycleOk(env: Env, records: Records, r: Record) {
    && r.payload.Keys == Shape(r.kind)
    && (r.kind.Need? || r.kind.Offer? || r.visibility.Private?)
    && match r.kind
       case Need => AreTags(Get(r.payload, Tags))
       case Offer => AreTags(Get(r.payload, Tags))
       case Match => MatchOk(env, records, r)
       case Proposal => ProposalOk(env, records, r)
       case Agreement => AgreementOk(env, records, r)
       case Fulfillment => FulfillmentOk(env, records, r)
       case Evidence => EvidenceOk(env, records, r)
       case Unsupported(_) => false
  }

  predicate MatchOk(env: Env, records: Records, r: Record) {
    var need, offer := Referenced(env, records, r.payload, NeedId, Need), Referenced(env, records, r.payload, OfferId, Offer);
    && need.Some? && offer.Some?
    && r.issuer == env.matcherId
    && Get(r.payload, RequesterId) == JText(need.value.issuer)
    && Get(r.payload, ProviderId) == JText(offer.value.issuer)
    && Get(r.payload, Authorized) == JBool(false)
  }

  predicate SameParties(p: Payload, q: Payload) {
    Get(p, RequesterId) == Get(q, RequesterId) && Get(p, ProviderId) == Get(q, ProviderId)
  }

  predicate ProposalOk(env: Env, records: Records, r: Record) {
    var m := Referenced(env, records, r.payload, MatchId, Match);
    && m.Some?
    && JText(r.issuer) == Get(m.value.payload, ProviderId)
    && SameParties(r.payload, m.value.payload)
    && Get(r.payload, Terms).JObject?
  }

  predicate AgreementOk(env: Env, records: Records, r: Record) {
    var proposal := Referenced(env, records, r.payload, ProposalId, Proposal);
    && proposal.Some?
    && JText(r.issuer) == Get(proposal.value.payload, RequesterId)
    && SameParties(r.payload, proposal.value.payload)
    && Get(r.payload, AcceptedTermsDigest) == JText(env.digest(Get(proposal.value.payload, Terms)))
  }

  predicate FulfillmentOk(env: Env, records: Records, r: Record) {
    var agreement := Referenced(env, records, r.payload, AgreementId, Agreement);
    && agreement.Some?
    && JText(r.issuer) == Get(agreement.value.payload, ProviderId)
    && "sha256:" <= Show(env, Get(r.payload, ArtifactDigest))
  }

  predicate EvidenceOk(env: Env, records: Records, r: Record) {
    var agreement, fulfillment :=
      Referenced(env, records, r.payload, AgreementId, Agreement), Referenced(env, records, r.payload, FulfillmentId, Fulfillment);
    && agreement.Some? && fulfillment.Some?
    && Get(fulfillment.value.payload, AgreementId) == JText(env.recordId(agreement.value))
    && JText(r.issuer) == Get(agreement.value.payload, RequesterId)
    && Get(r.payload, Outcome) in {JText("accepted"), JText("rejected"), JText("disputed")}
  }

  // ----- Submitting -----

  /** The stored records, in the order they came. */
  datatype Book = Book(records: Records, order: seq<string>)

  const EMPTY := Book(map[], [])

  function Submit(env: Env, s: Book, r: Record, now: int): Result<(Book, Record)> {
    var id := env.recordId(r);
    if !Verifies(env, r, now) || PayloadHasFinancial(r.payload) then Err(ValueError)
    else if id in s.records then Ok((s, s.records[id]))
    else if !LifecycleOk(env, s.records, r) then Err(ValueError)
    else Ok((Book(s.records[id := r], s.order + [id]), r))
  }

  /** Every stored record is genuine, under its own id, free of financial fields,
      and its references hold. */
  ghost predicate Sound(env: Env, s: Book) {
    && (forall k :: k in s.records ==> IsSound(env, s.records, k))
    && (forall k :: k in s.order <==> k in s.records)
  }

  ghost predicate IsSound(env: Env, records: Records, k: string)
    requires k in records
  {
    && env.recordId(records[k]) == k && Genuine(env, records[k]) && LifecycleOk(env, records, records[k])
    && !PayloadHasFinancial(records[k].payload)
  }

  ghost predicate Extends(records: Records, more: Records) {
    forall k :: k in records ==> k in more && more[k] == records[k]
  }

  lemma LifecycleIsStable(env: Env, records: Records, more: Records, r: Record)
    requires LifecycleOk(env, records, r) && Extends(records, more)
    ensures LifecycleOk(env, more, r)
  {
  }

  lemma SubmitKeepsSound(env: Env, s: Book, r: Record, now: int)
    requires Sound(env, s) && Submit(env, s, r, now).Ok?
    ensures var s' := Submit(env, s, r, now).value.0; Sound(env, s') && Extends(s.records, s'.records)
    ensures env.recordId(r) in Submit(env, s, r, now).value.0.records
    ensures Submit(env, s, r, now).value.1 == Submit(env, s, r, now).value.0.records[env.recordId(r)]
  {
    var s' := Submit(env, s, r, now).value.0;
    if s' != s {
      assert Extends(s.records, s'.records);
      hide LifecycleOk, Genuine, PayloadHasFinancial;
      forall k | k in s'.records ensures IsSound(env, s'.records, k) {
        if k in s.records {
          assert IsSound(env, s.records, k);
        }
        LifecycleIsStable(env, s.records, s'.records, s'.records[k]);
      }
    }
  }

  // ----- Provenance -----

  datatype Origin = Origin(fulfillment: Record, agreement: Record, proposal: Record, match_: Record, need: Record, offer: Record)

  ghost predicate Stored(env: Env, s: Book, r: Record, kind: Kind) {
    env.recordId(r) in s.records && s.records[env.recordId(r)] == r && r.kind == kind
  }

  /** The chain from a piece of evidence back to a need and an offer. */
  ghost predicate TracesTo(env: Env, s: Book, e: Record, o: Origin) {
    && Stored(env, s, o.fulfillment, Fulfillment) && Stored(env, s, o.agreement, Agreement)
    && Stored(env, s, o.proposal, Proposal) && Stored(env, s, o.match_, Match)
    && Stored(env, s, o.need, Need) && Stored(env, s, o.offer, Offer)
    && Show(env, Get(e.payload, FulfillmentId)) == env.recordId(o.fulfillment)
    && Show(env, Get(e.payload, AgreementId)) == env.recordId(o.agreement)
    && Show(env, Get(o.fulfillment.payload, AgreementId)) == env.recordId(o.agreement)
    && Show(env, Get(o.agreement.payload, ProposalId)) == env.recordId(o.proposal)
    && Show(env, Get(o.proposal.payload, MatchId)) == env.recordId(o.match_)
    && Show(env, Get(o.match_.payload, NeedId)) == env.recordId(o.need)
    && Show(env, Get(o.match_.payload, OfferId)) == env.recordId(o.offer)
  }

  /** The parties at both ends agree, and so do the terms; everything between need
      and evidence is private, and the match authorizes nothing. */
  ghost predicate PartiesAgree(env: Env, e: Record, o: Origin) {
    && e.issuer == o.need.issuer == o.agreement.issuer
    && o.fulfillment.issuer == o.offer.issuer == o.proposal.issuer
    && o.match_.issuer == env.matcherId && Get(o.match_.payload, Authorized) == JBool(false)
    && e.visibility.Private? && o.fulfillment.visibility.Private? && o.agreement.visibility.Private?
    && o.proposal.visibility.Private? && o.match_.visibility.Private?
    && Get(o.agreement.payload, AcceptedTermsDigest) == JText(env.digest(Get(o.proposal.payload, Terms)))
  }

  lemma ReferenceIsStored(env: Env, s: Book, p: Payload, k: Key, kind: Kind)
    requires Sound(env, s) && Referenced(env, s.records, p, k, kind).Some?
    ensures var r := Referenced(env, s.records, p, k, kind).value;
      Stored(env, s, r, kind) && Show(env, Get(p, k)) == env.recordId(r) && LifecycleOk(env, s.records, r)
  {
    assert IsSound(env, s.records, Show(env, Get(p, k)));
  }

  /** Evidence in a sound bazaar traces through fulfillment, agreement, proposal
      and match to a need and an offer, with the right issuers all along. */
  lemma EvidenceHasOrigin(env: Env, s: Book, e: Record) returns (o: Origin)
    requires Sound(env, s) && Stored(env, s, e, Evidence)
    ensures TracesTo(env, s, e, o) && PartiesAgree(env, e, o)
  {
    assert IsSound(env, s.records, env.recordId(e));
    var fulfillment := Referenced(env, s.records, e.payload, FulfillmentId, Fulfillment).value;
    var agreement := Referenced(env, s.records, e.payload, AgreementId, Agreement).value;
    ReferenceIsStored(env, s, e.payload, FulfillmentId, Fulfillment);
    ReferenceIsStored(env, s, e.payload, AgreementId, Agreement);
    ReferenceIsStored(env, s, agreement.payload, ProposalId, Proposal);
    var proposal := Referenced(env, s.records, agreement.payload, ProposalId, Proposal).value;
    ReferenceIsStored(env, s, proposal.payload, MatchId, Match);
    var match_ := Referenced(env, s.records, proposal.payload, MatchId, Match).value;
    ReferenceIsStored(env, s, match_.payload, NeedId, Need);
    ReferenceIsStored(env, s, match_.payload, OfferId, Offer);
    o := Origin(fulfillment, agreement, proposal, match_,
                Referenced(env, s.records, match_.payload, NeedId, Need).value,
                Referenced(env, s.records, match_.payload, OfferId, Offer).value);
  }

  // ----- Runs -----

  datatype Step = Submission(r: Record, now: int) | Matching(now: int)

  function Advance(env: Env, s: Book, step: Step): Book {
    match step
    case Submission(r, now) => (match Submit(env, s, r, now) case Ok(x) => x.0 case Err(_) => s)
    case Matching(now) => FindMatches(env, s, now).0
  }

  function After(env: Env, steps: seq<Step>, n: nat): Book
    requires n <= |steps|
  {
    if n == 0 then EMPTY else Advance(env, After(env, steps, n - 1), steps[n - 1])
  }

  lemma {:induction false} ReachableIsSound(env: Env, steps: seq<Step>, n: nat)
    requires n <= |steps|
    ensures Sound(env, After(env, steps, n))
  {
    if n == 0 {
    } else {
      ReachableIsSound(env, steps, n - 1);
      var s, step := After(env, steps, n - 1), steps[n - 1];
      match step
      case Submission(r, now) =>
        if Submit(env, s, r, now).Ok? {
          SubmitKeepsSound(env, s, r, now);
        }
      case Matching(now) =>
        MatchingKeepsSound(env, s, now);
    }
  }

  /** After any submissions and matchings, every stored piece of evidence has its
      whole history in the bazaar. */
  lemma Provenance(env: Env, steps: seq<Step>, n: nat, e: Record) returns (o: Origin)
    requires n <= |steps| && Stored(env, After(env, steps, n), e, Evidence)
    ensures TracesTo(env, After(env, steps, n), e, o) && PartiesAgree(env, e, o)
  {
    ReachableIsSound(env, steps, n);
    o := EvidenceHasOrigin(env, After(env, steps, n), e);
  }

  // ----- Matching -----

  function Listed(records: Records, order: seq<string>, kind: Kind): seq<Record>
    requires forall k :: k in order ==> k in records
  {
    if order == [] then []
    else
      var r := records[order[0]];
      (if r.kind == kind && r.visibility.Public? then [r] else []) + Listed(records, order[1..], kind)
  }

  function TagSet(j: Json): set<Json> {
    if j.JList? then set t | t in j.items else {}
  }

  /** The tags of the first list that the second has too; in the source they are
      sorted, which no check depends on. */
  function SharedTags(xs: seq<Json>, ys: set<Json>): seq<Json> {
    if xs == [] then []
    else (if xs[0] in ys && xs[0] !in xs[1..] then [xs[0]] else []) + SharedTags(xs[1..], ys)
  }

  function MatchRecord(env: Env, need: Record, offer: Record, now: int): Record {
    var tags := Get(need.payload, Tags);
    var shared := SharedTags(if tags.JList? then tags.items else [], TagSet(Get(offer.payload, Tags)));
    var reasons := [JText("capability:" + Show(env, Get(need.payload, Capability)))]
                   + seq(|shared|, i requires 0 <= i < |shared| => JText("tag:" + Show(env, shared[i])));
    var payload := map[
      NeedId := JText(env.recordId(need)), OfferId := JText(env.recordId(offer)),
      RequesterId := JText(need.issuer), ProviderId := JText(offer.issuer),
      Score := JInt(Min(100, 80 + 5 * |shared|)), Reasons := JList(reasons), Authorized := JBool(false)];
    var unsigned := Record(Match, env.matcherId, env.matcherKey, Private, now, now + 3600000,
                           env.pairNonce(env.recordId(need), env.recordId(offer)), payload, "");
    unsigned.(signature := env.sign(unsigned))
  }

  predicate Compatible(need: Record, offer: Record) {
    Get(need.payload, Capability) == Get(offer.payload, Capability)
  }

  /** The matches to submit for one need, in the order of the offers. */
  function MatchesFor(env: Env, need: Record, offers: seq<Record>, now: int): seq<Record> {
    if offers == [] then []
    else (if Compatible(need, offers[0]) then [MatchRecord(env, need, offers[0], now)] else [])
         + MatchesFor(env, need, offers[1..], now)
  }

  function AllMatches(env: Env, needs: seq<Record>, offers: seq<Record>, now: int): seq<Record> {
    if needs == [] then [] else MatchesFor(env, needs[0], offers, now) + AllMatches(env, needs[1..], offers, now)
  }

  function SubmitAll(env: Env, s: Book, rs: seq<Record>, now: int): (Book, Result<seq<Record>>)
    decreases |rs|
  {
    if rs == [] then (s, Ok([]))
    else match Submit(env, s, rs[0], now)
      case Err(e) => (s, Err(e))
      case Ok((next, r)) =>
        var (last, rest) := SubmitAll(env, next, rs[1..], now);
        (last, if rest.Ok? then Ok([r] + rest.value) else rest)
  }

  predicate AllVerify(env: Env, rs: seq<Record>, now: int) {
    forall i :: 0 <= i < |rs| ==> Verifies(env, rs[i], now)
  }

  function Discovered(s: Book, kind: Kind): seq<Record> {
    if forall k :: k in s.order ==> k in s.records then Listed(s.records, s.order, kind) else []
  }

  function FindMatches(env: Env, s: Book, now: int): (Book, Result<seq<Record>>) {
    var needs, offers := Discovered(s, Need), Discovered(s, Offer);
    if !AllVerify(env, needs, now) || !AllVerify(env, offers, now) then (s, Err(ValueError))
    else SubmitAll(env, s, AllMatches(env, needs, offers, now), now)
  }

  lemma {:induction false} SubmitAllKeepsSound(env: Env, s: Book, rs: seq<Record>, now: int)
    requires Sound(env, s)
    ensures var s' := SubmitAll(env, s, rs, now).0; Sound(env, s') && Extends(s.records, s'.records)
    decreases |rs|
  {
    if rs == [] {
    } else if Submit(env, s, rs[0], now).Ok? {
      SubmitKeepsSound(env, s, rs[0], now);
      hide Sound, Submit;
      SubmitAllKeepsSound(env, Submit(env, s, rs[0], now).value.0, rs[1..], now);
    }
  }

  lemma MatchingKeepsSound(env: Env, s: Book, now: int)
    requires Sound(env, s)
    ensures Sound(env, FindMatches(env, s, now).0)
  {
    SubmitAllKeepsSound(env, s, AllMatches(env, Discovered(s, Need), Discovered(s, Offer), now), now);
    hide Sound, SubmitAll, AllMatches, Discovered;
  }

  // ----- When matching fails -----

  /** The matcher's key belongs to its id and signs what it issues. */
  ghost predicate MatcherSigns(env: Env) {
    && env.participant(env.matcherKey) == Some(env.matcherId)
    && forall r: Record :: r.issuer == env.matcherId && r.publicKey == env.matcherKey ==> env.signed(r.(signature := env.sign(r)))
  }

  ghost predicate Discoverable(s: Book, k: string)
  {
    k in s.records && (s.records[k].kind.Need? || s.records[k].kind.Offer?) && s.records[k].visibility.Public?
  }

  ghost predicate IsListed(records: Records, order: seq<string>, kind: Kind, r: Record)
    requires forall k :: k in order ==> k in records
  {
    exists k :: k in order && records[k] == r && r.kind == kind && r.visibility.Public?
  }

  /** What a listing holds: the public records of the kind. */
  lemma {:induction false} ListedSpec(records: Records, order: seq<string>, kind: Kind)
    requires forall k :: k in order ==> k in records
    ensures forall r :: r in Listed(records, order, kind) <==> IsListed(records, order, kind, r)
  {
    if order == [] {
    } else {
      assert order[0] in order && forall k :: k in order[1..] ==> k in order;
      ListedSpec(records, order[1..], kind);
      forall r ensures r in Listed(records, order, kind) <==> IsListed(records, order, kind, r) {
        if IsListed(records, order, kind, r) {
          var k :| k in order && records[k] == r && r.kind == kind && r.visibility.Public?;
          assert k == order[0] || k in order[1..];
        }
        if IsListed(records, order[1..], kind, r) {
          var k :| k in order[1..] && records[k] == r && r.kind == kind && r.visibility.Public?;
          assert k in order;
        }
      }
    }
  }

  lemma ReasonsAreFree(reasons: seq<Json>)
    requires forall i :: 0 <= i < |reasons| ==> reasons[i].JText?
    ensures !HasFinancial(JList(reasons))
  {
  }

  /** A match for a stored need and offer is always accepted. */
  lemma MatchIsAccepted(env: Env, s: Book, need: Record, offer: Record, now: int)
    requires MatcherSigns(env) && Sound(env, s) && Stored(env, s, need, Need) && Stored(env, s, offer, Offer)
    ensures Submit(env, s, MatchRecord(env, need, offer, now), now).Ok?
  {
    hide MatchRecord, LifecycleOk, Genuine, PayloadHasFinancial, Sound, MatcherSigns;
    MatchPayloadIsFree(env, need, offer, now);
    MatchIsGenuine(env, need, offer, now);
    MatchFitsLifecycle(env, s, need, offer, now);
    MatchIsCurrent(env, need, offer, now);
  }

  lemma MatchIsCurrent(env: Env, need: Record, offer: Record, now: int)
    ensures Current(MatchRecord(env, need, offer, now), now)
  {
  }

  lemma MatchIsGenuine(env: Env, need: Record, offer: Record, now: int)
    requires MatcherSigns(env)
    ensures Genuine(env, MatchRecord(env, need, offer, now))
  {
    var m := MatchRecord(env, need, offer, now);
    assert m == m.(signature := "").(signature := env.sign(m.(signature := "")));
  }

  lemma MatchFitsLifecycle(env: Env, s: Book, need: Record, offer: Record, now: int)
    requires Stored(env, s, need, Need) && Stored(env, s, offer, Offer)
    ensures LifecycleOk(env, s.records, MatchRecord(env, need, offer, now))
  {
    hide SharedTags, TagSet;
    var m := MatchRecord(env, need, offer, now);
    assert m.payload.Keys == Shape(Match);
    assert MatchOk(env, s.records, m);
  }

  lemma MatchPayloadIsFree(env: Env, need: Record, offer: Record, now: int)
    ensures !PayloadHasFinancial(MatchRecord(env, need, offer, now).payload)
  {
    var p := MatchRecord(env, need, offer, now).payload;
    ReasonsAreFree(p[Reasons].items);
    forall k | k in p ensures !k.Other? && !HasFinancial(p[k]) {
    }
  }

  lemma {:induction false} MatchesForSpec(env: Env, need: Record, offers: seq<Record>, now: int)
    ensures forall m :: m in MatchesFor(env, need, offers, now) <==>
      exists i :: 0 <= i < |offers| && Compatible(need, offers[i]) && m == MatchRecord(env, need, offers[i], now)
  {
    hide MatchRecord, Compatible;
    if offers == [] {
    } else {
      MatchesForSpec(env, need, offers[1..], now);
      forall m ensures m in MatchesFor(env, need, offers, now) <==>
        exists i :: 0 <= i < |offers| && Compatible(need, offers[i]) && m == MatchRecord(env, need, offers[i], now)
      {
        if i :| 0 <= i < |offers[1..]| && Compatible(need, offers[1..][i]) && m == MatchRecord(env, need, offers[1..][i], now) {
          assert Compatible(need, offers[i + 1]) && m == MatchRecord(env, need, offers[i + 1], now);
        }
        if i :| 0 <= i < |offers| && Compatible(need, offers[i]) && m == MatchRecord(env, need, offers[i], now) {
          assert i > 0 ==> offers[1..][i - 1] == offers[i];
        }
      }
    }
  }

  ghost predicate IsPairing(env: Env, needs: seq<Record>, offers: seq<Record>, now: int, m: Record) {
    exists need, offer :: need in needs && offer in offers && Compatible(need, offer) && m == MatchRecord(env, need, offer, now)
  }

  /** Exactly the compatible pairs of a need and an offer are matched. */
  lemma {:induction false} AllMatchesSpec(env: Env, needs: seq<Record>, offers: seq<Record>, now: int)
    ensures forall m :: m in AllMatches(env, needs, offers, now) <==> IsPairing(env, needs, offers, now, m)
  {
    hide MatchRecord, Compatible;
    if needs == [] {
    } else {
      AllMatchesSpec(env, needs[1..], offers, now);
      MatchesForSpec(env, needs[0], offers, now);
      forall m ensures m in AllMatches(env, needs, offers, now) <==> IsPairing(env, needs, offers, now, m) {
        if IsPairing(env, needs, offers, now, m) {
          var need, offer :| need in needs && offer in offers && Compatible(need, offer) && m == MatchRecord(env, need, offer, now);
          if need != needs[0] {
            assert need in needs[1..];
          } else {
            var i :| 0 <= i < |offers| && offers[i] == offer;
          }
        }
        if IsPairing(env, needs[1..], offers, now, m) {
          var need, offer :| need in needs[1..] && offer in offers && Compatible(need, offer) && m == MatchRecord(env, need, offer, now);
          assert need in needs;
        }
        if m in MatchesFor(env, needs[0], offers, now) {
          var i :| 0 <= i < |offers| && Compatible(needs[0], offers[i]) && m == MatchRecord(env, needs[0], offers[i], now);
          assert needs[0] in needs && offers[i] in offers;
        }
      }
    }
  }

  ghost predicate AllStored(env: Env, s: Book, rs: seq<Record>, kind: Kind) {
    forall r :: r in rs ==> Stored(env, s, r, kind)
  }

  lemma {:induction false} PairingsAreAccepted(env: Env, s: Book, needs: seq<Record>, offers: seq<Record>, rs: seq<Record>, now: int)
    requires MatcherSigns(env) && Sound(env, s) && AllStored(env, s, needs, Need) && AllStored(env, s, offers, Offer)
    requires forall m :: m in rs ==> IsPairing(env, needs, offers, now, m)
    ensures SubmitAll(env, s, rs, now).1.Ok?
    decreases |rs|
  {
    hide MatchRecord, Sound, Submit, MatcherSigns;
    if rs == [] {
    } else {
      assert rs[0] in rs;
      var need, offer :| need in needs && offer in offers && Compatible(need, offer) && rs[0] == MatchRecord(env, need, offer, now);
      MatchIsAccepted(env, s, need, offer, now);
      SubmitKeepsSound(env, s, rs[0], now);
      assert forall m :: m in rs[1..] ==> m in rs;
      PairingsAreAccepted(env, Submit(env, s, rs[0], now).value.0, needs, offers, rs[1..], now);
    }
  }

  lemma DiscoveredAreStored(env: Env, s: Book, kind: Kind)
    requires Sound(env, s)
    ensures AllStored(env, s, Discovered(s, kind), kind)
  {
    ListedSpec(s.records, s.order, kind);
    hide Genuine, LifecycleOk;
    var rs := Discovered(s, kind);
    forall r | r in rs ensures Stored(env, s, r, kind) {
      assert IsListed(s.records, s.order, kind, r);
      var k :| k in s.order && s.records[k] == r && r.kind == kind && r.visibility.Public?;
      assert IsSound(env, s.records, k);
    }
  }

  /** A public need or offer whose time is over, or not yet come. */
  ghost predicate Blocks(s: Book, k: string, now: int) {
    Discoverable(s, k) && !Current(s.records[k], now)
  }

  lemma DiscoveredVerifyIff(env: Env, s: Book, kind: Kind, now: int)
    requires Sound(env, s) && (kind.Need? || kind.Offer?)
    ensures AllVerify(env, Discovered(s, kind), now) <==> forall k :: Blocks(s, k, now) ==> s.records[k].kind != kind
  {
    ListedSpec(s.records, s.order, kind);
    hide LifecycleOk, Genuine;
    var rs := Discovered(s, kind);
    forall i | 0 <= i < |rs| ensures Genuine(env, rs[i]) {
      assert rs[i] in rs && IsListed(s.records, s.order, kind, rs[i]);
      var k :| k in s.order && s.records[k] == rs[i] && rs[i].kind == kind && rs[i].visibility.Public?;
      assert IsSound(env, s.records, k);
    }
    if i :| 0 <= i < |rs| && !Verifies(env, rs[i], now) {
      assert rs[i] in rs && IsListed(s.records, s.order, kind, rs[i]);
      var k :| k in s.order && s.records[k] == rs[i] && rs[i].kind == kind && rs[i].visibility.Public?;
      assert Blocks(s, k, now);
    }
    if k :| Blocks(s, k, now) && s.records[k].kind == kind {
      assert IsListed(s.records, s.order, kind, s.records[k]);
      assert s.records[k] in rs;
      var i :| 0 <= i < |rs| && rs[i] == s.records[k];
    }
  }

  /** Matching fails exactly when some public need or offer is not currently valid:
      one expired record blocks the matching of everybody.  Failing, it leaves
      the bazaar as it was. */
  lemma FindMatchesFailsIff(env: Env, s: Book, now: int)
    requires MatcherSigns(env) && Sound(env, s)
    ensures FindMatches(env, s, now).1.Err? <==> exists k :: Blocks(s, k, now)
    ensures FindMatches(env, s, now).1.Err? ==> FindMatches(env, s, now).0 == s
  {
    DiscoveredVerifyIff(env, s, Need, now);
    DiscoveredVerifyIff(env, s, Offer, now);
    DiscoveredAreStored(env, s, Need);
    DiscoveredAreStored(env, s, Offer);
    var needs, offers := Discovered(s, Need), Discovered(s, Offer);
    AllMatchesSpec(env, needs, offers, now);
    PairingsAreAccepted(env, s, needs, offers, AllMatches(env, needs, offers, now), now);
    hide Sound, Discovered, SubmitAll, AllMatches, AllVerify, MatcherSigns, AllStored;
  }

  // ----- What matching returns and stores -----

  /** A public need and a public offer in the bazaar with one capability. */
  ghost predicate IsPublicPair(env: Env, s: Book, need: Record, offer: Record) {
    && Stored(env, s, need, Need) && need.visibility.Public?
    && Stored(env, s, offer, Offer) && offer.visibility.Public?
    && SameCapability(need, offer)
  }

  ghost predicate SameCapability(need: Record, offer: Record) {
    && Capability in need.payload && Capability in offer.payload
    && need.payload[Capability] == offer.payload[Capability]
  }

  ghost predicate CompatibleIsSame(env: Env, s: Book) {
    forall need, offer :: Stored(env, s, need, Need) && Stored(env, s, offer, Offer) ==>
      (Compatible(need, offer) <==> SameCapability(need, offer))
  }

  lemma StoredAreComparable(env: Env, s: Book)
    requires Sound(env, s)
    ensures CompatibleIsSame(env, s)
  {
    hide Genuine, PayloadHasFinancial;
    forall r, kind | Stored(env, s, r, kind) && (kind.Need? || kind.Offer?) ensures Capability in r.payload {
      assert IsSound(env, s.records, env.recordId(r));
      assert Capability in Shape(kind);
    }
    hide Sound, Stored, LifecycleOk, Shape;
  }

  lemma DiscoveredIff(env: Env, s: Book, kind: Kind, r: Record)
    requires Sound(env, s)
    ensures r in Discovered(s, kind) <==> Stored(env, s, r, kind) && r.visibility.Public?
  {
    ListedSpec(s.records, s.order, kind);
    hide Genuine, LifecycleOk, PayloadHasFinancial;
    assert r in Discovered(s, kind) <==> IsListed(s.records, s.order, kind, r);
    if IsListed(s.records, s.order, kind, r) {
      var k :| k in s.order && s.records[k] == r && r.kind == kind && r.visibility.Public?;
      assert IsSound(env, s.records, k);
    }
    if Stored(env, s, r, kind) && r.visibility.Public? {
      assert env.recordId(r) in s.order && s.records[env.recordId(r)] == r;
    }
  }

  /** Submitting a list stores each record under its id, unless that id is taken,
      answers with what is stored there, and stores nothing else. */
  lemma {:induction false} SubmitAllSpec(env: Env, s: Book, rs: seq<Record>, now: int)
    requires Sound(env, s) && SubmitAll(env, s, rs, now).1.Ok?
    ensures var (s', out) := (SubmitAll(env, s, rs, now).0, SubmitAll(env, s, rs, now).1.value);
      && Extends(s.records, s'.records)
      && |out| == |rs| && (forall i :: 0 <= i < |rs| ==> Answered(env, s'.records, rs[i], out[i]))
      && (forall k :: k in s'.records ==> k in s.records || IsNew(env, s'.records, k, rs))
    decreases |rs|
  {
    if rs == [] {
    } else {
      SubmitKeepsSound(env, s, rs[0], now);
      SubmitStoresOnly(env, s, rs[0], now);
      hide Sound, Submit;
      var next := Submit(env, s, rs[0], now).value.0;
      SubmitAllSpec(env, next, rs[1..], now);
      var s', out := SubmitAll(env, s, rs, now).0, SubmitAll(env, s, rs, now).1.value;
      forall k | k in s'.records && k !in s.records ensures IsNew(env, s'.records, k, rs) {
        if k in next.records {
          assert k == env.recordId(rs[0]) && s'.records[k] == rs[0];
        } else {
          var i :| 0 <= i < |rs[1..]| && k == env.recordId(rs[1..][i]) && s'.records[k] == rs[1..][i];
          assert rs[i + 1] == rs[1..][i];
        }
      }
      forall i | 0 <= i < |rs| ensures Answered(env, s'.records, rs[i], out[i]) {
        assert i > 0 ==> rs[i] == rs[1..][i - 1];
      }
    }
  }

  ghost predicate Answered(env: Env, records: Records, r: Record, answer: Record) {
    env.recordId(r) in records && answer == records[env.recordId(r)]
  }

  ghost predicate IsNew(env: Env, records: Records, k: string, rs: seq<Record>)
    requires k in records
  {
    exists i :: 0 <= i < |rs| && k == env.recordId(rs[i]) && records[k] == rs[i]
  }

  lemma SubmitStoresOnly(env: Env, s: Book, r: Record, now: int)
    requires Submit(env, s, r, now).Ok?
    ensures var s' := Submit(env, s, r, now).value.0;
      forall k :: k in s'.records && k !in s.records ==> k == env.recordId(r) && s'.records[k] == r
  {
    hide LifecycleOk, Verifies, PayloadHasFinancial;
  }

  /** What matching does when nothing blocks it: it returns, for exactly the public
      pairs of a need and an offer with one capability, the record stored under the
      id of their match, and whatever it adds to the bazaar is such a match. */
  lemma FindMatchesSpec(env: Env, s: Book, now: int)
    requires Sound(env, s) && FindMatches(env, s, now).1.Ok?
    ensures var (s', found) := (FindMatches(env, s, now).0, FindMatches(env, s, now).1.value);
      && (forall need, offer :: IsPublicPair(env, s, need, offer) ==>
            exists x :: x in found && Answered(env, s'.records, MatchRecord(env, need, offer, now), x))
      && (forall x :: x in found ==> AnswersPair(env, s, s'.records, now, x))
      && (forall k :: k in s'.records && k !in s.records ==> MatchesPair(env, s, now, k, s'.records[k]))
      && Extends(s.records, s'.records)
  {
    var needs, offers := Discovered(s, Need), Discovered(s, Offer);
    var rs := AllMatches(env, needs, offers, now);
    var s', found := FindMatches(env, s, now).0, FindMatches(env, s, now).1.value;
    SubmitAllSpec(env, s, rs, now);
    AllMatchesSpec(env, needs, offers, now);
    StoredAreComparable(env, s);
    forall r ensures r in needs <==> Stored(env, s, r, Need) && r.visibility.Public? {
      DiscoveredIff(env, s, Need, r);
    }
    forall r ensures r in offers <==> Stored(env, s, r, Offer) && r.visibility.Public? {
      DiscoveredIff(env, s, Offer, r);
    }
    hide *;
    PairsAreAnswered(env, s, s'.records, needs, offers, rs, found, now);
    AnswersArePairs(env, s, s'.records, needs, offers, rs, found, now);
  }

  /** The answer to the match of some public pair. */
  ghost predicate AnswersPair(env: Env, s: Book, records: Records, now: int, x: Record) {
    exists need, offer :: IsPublicPair(env, s, need, offer) && Answered(env, records, MatchRecord(env, need, offer, now), x)
  }

  ghost predicate MatchesPair(env: Env, s: Book, now: int, k: string, x: Record) {
    exists need, offer :: IsPublicPair(env, s, need, offer)
      && k == env.recordId(MatchRecord(env, need, offer, now)) && x == MatchRecord(env, need, offer, now)
  }

  lemma PairsAreAnswered(env: Env, s: Book, records: Records, needs: seq<Record>, offers: seq<Record>, rs: seq<Record>,
                         found: seq<Record>, now: int)
    requires CompatibleIsSame(env, s)
    requires forall r :: r in needs <==> Stored(env, s, r, Need) && r.visibility.Public?
    requires forall r :: r in offers <==> Stored(env, s, r, Offer) && r.visibility.Public?
    requires forall m :: m in rs <==> IsPairing(env, needs, offers, now, m)
    requires |found| == |rs| && forall i :: 0 <= i < |rs| ==> Answered(env, records, rs[i], found[i])
    ensures forall need, offer :: IsPublicPair(env, s, need, offer) ==>
      exists x :: x in found && Answered(env, records, MatchRecord(env, need, offer, now), x)
  {
    hide Stored, MatchRecord, Compatible, SameCapability, Answered;
    forall need, offer | IsPublicPair(env, s, need, offer)
      ensures exists x :: x in found && Answered(env, records, MatchRecord(env, need, offer, now), x)
    {
      var m := MatchRecord(env, need, offer, now);
      assert IsPairing(env, needs, offers, now, m);
      var i :| 0 <= i < |rs| && rs[i] == m;
      assert found[i] in found && Answered(env, records, m, found[i]);
    }
  }

  lemma AnswersArePairs(env: Env, s: Book, records: Records, needs: seq<Record>, offers: seq<Record>, rs: seq<Record>,
                        found: seq<Record>, now: int)
    requires CompatibleIsSame(env, s)
    requires forall r :: r in needs <==> Stored(env, s, r, Need) && r.visibility.Public?
    requires forall r :: r in offers <==> Stored(env, s, r, Offer) && r.visibility.Public?
    requires forall m :: m in rs <==> IsPairing(env, needs, offers, now, m)
    requires |found| == |rs| && forall i :: 0 <= i < |rs| ==> Answered(env, records, rs[i], found[i])
    ensures forall x :: x in found ==> AnswersPair(env, s, records, now, x)
    ensures forall k :: k in records && IsNew(env, records, k, rs) ==> MatchesPair(env, s, now, k, records[k])
  {
    hide Stored, MatchRecord, Compatible, SameCapability, Answered;
    forall i | 0 <= i < |rs|
      ensures AnswersPair(env, s, records, now, found[i]) && MatchesPair(env, s, now, env.recordId(rs[i]), rs[i])
    {
      assert rs[i] in rs;
      var need, offer :| need in needs && offer in offers && Compatible(need, offer) && rs[i] == MatchRecord(env, need, offer, now);
      assert IsPublicPair(env, s, need, offer);
    }
  }

  // ----- The object -----

  class Bazaar {
    const env: Env
    var records: Records
    var order: seq<string>

    constructor (env: Env)
      ensures this.env == env && State() == EMPTY
    {
      this.env := env;
      records, order := map[], [];
    }

    function State(): Book
      reads this
    {
      Book(records, order)
    }

    method SubmitRecord(r: Record, now: int) returns (result: Result<Record>)
      modifies this
      ensures var spec := Submit(env, old(State()), r, now);
        if result.Ok? then spec == Ok((State(), result.value)) else spec == Err(result.error) && State() == old(State())
    {
      hide LifecycleOk, PayloadHasFinancial, Verifies;
      if !Verifies(env, r, now) || PayloadHasFinancial(r.payload) {
        return Err(ValueError);
      }
      var id := env.recordId(r);
      if id in records {
        return Ok(records[id]);
      }
      if !LifecycleOk(env, records, r) {
        return Err(ValueError);
      }
      records := records[id := r];
      order := order + [id];
      return Ok(r);
    }

    /** Matches every discoverable need with every discoverable offer. */
    method FindAllMatches(now: int) returns (result: Result<seq<Record>>)
      modifies this
      ensures (State(), result) == FindMatches(env, old(State()), now)
    {
      var needs, offers := Discovered(State(), Need), Discovered(State(), Offer);
      if !AllVerify(env, needs, now) || !AllVerify(env, offers, now) {
        return Err(ValueError);
      }
      ghost var all := AllMatches(env, needs, offers, now);
      assert FindMatches(env, State(), now) == SubmitAll(env, State(), all, now);
      result := MatchAll(needs, offers, now);
    }

    /** The nested loops over needs and offers. */
    method MatchAll(needs: seq<Record>, offers: seq<Record>, now: int) returns (result: Result<seq<Record>>)
      modifies this
      ensures (State(), result) == SubmitAll(env, old(State()), AllMatches(env, needs, offers, now), now)
    {
      hide *;
      ghost var all := AllMatches(env, needs, offers, now);
      var matches := [];
      var i := 0;
      SubmitStarts(env, State(), all, now);
      assert needs[0..] == needs;
      while i < |needs|
        invariant i <= |needs|
        invariant Continues(env, old(State()), all, State(), AllMatches(env, needs[i..], offers, now), matches, now)
      {
        var j := 0;
        AllMatchesUnfold(env, needs, i, offers, now);
        assert offers[0..] == offers;
        while j < |offers|
          invariant j <= |offers|
          invariant Continues(env, old(State()), all, State(),
                              MatchesFor(env, needs[i], offers[j..], now) + AllMatches(env, needs[i + 1..], offers, now), matches, now)
        {
          ghost var rest := MatchesFor(env, needs[i], offers[j + 1..], now) + AllMatches(env, needs[i + 1..], offers, now);
          MatchesForUnfold(env, needs[i], offers, j, AllMatches(env, needs[i + 1..], offers, now), now);
          if Compatible(needs[i], offers[j]) {
            var m := MatchRecord(env, needs[i], offers[j], now);
            SubmitOneMore(env, old(State()), all, State(), m, rest, matches, now);
            var submitted := SubmitRecord(m, now);
            if submitted.Err? {
              return Err(submitted.error);
            }
            matches := matches + [submitted.value];
          }
          j := j + 1;
        }
        MatchesForEnds(env, needs[i], offers[j..], now);
        assert [] + AllMatches(env, needs[i + 1..], offers, now) == AllMatches(env, needs[i + 1..], offers, now);
        i := i + 1;
      }
      SubmitEnds(env, old(State()), all, State(), needs[i..], offers, matches, now);
      return Ok(matches);
    }
  }

  // ----- The matching loops -----

  /** What remains to be submitted from `s` completes the submission of `all`. */
  ghost predicate Continues(env: Env, s0: Book, all: seq<Record>, s: Book, rest: seq<Record>, got: seq<Record>, now: int) {
    var (last, more) := SubmitAll(env, s, rest, now);
    SubmitAll(env, s0, all, now) == (last, if more.Ok? then Ok(got + more.value) else more)
  }

  lemma SubmitStarts(env: Env, s: Book, all: seq<Record>, now: int)
    ensures Continues(env, s, all, s, all, [], now)
  {
    var (_, more) := SubmitAll(env, s, all, now);
    assert more.Ok? ==> [] + more.value == more.value;
  }

  lemma SubmitOneMore(env: Env, s0: Book, all: seq<Record>, s: Book, m: Record, rest: seq<Record>, got: seq<Record>, now: int)
    requires Continues(env, s0, all, s, [m] + rest, got, now)
    ensures Submit(env, s, m, now).Err? ==> SubmitAll(env, s0, all, now) == (s, Err(Submit(env, s, m, now).error))
    ensures Submit(env, s, m, now).Ok? ==>
              Continues(env, s0, all, Submit(env, s, m, now).value.0, rest, got + [Submit(env, s, m, now).value.1], now)
  {
    assert ([m] + rest)[1..] == rest;
    hide Submit;
    if Submit(env, s, m, now).Ok? {
      var r := Submit(env, s, m, now).value.1;
      var (_, more) := SubmitAll(env, Submit(env, s, m, now).value.0, rest, now);
      assert more.Ok? ==> got + ([r] + more.value) == got + [r] + more.value;
    }
  }

  lemma SubmitEnds(env: Env, s0: Book, all: seq<Record>, s: Book, needs: seq<Record>, offers: seq<Record>, got: seq<Record>, now: int)
    requires needs == [] && Continues(env, s0, all, s, AllMatches(env, needs, offers, now), got, now)
    ensures SubmitAll(env, s0, all, now) == (s, Ok(got))
  {
    assert got + [] == got;
  }

  lemma AllMatchesUnfold(env: Env, needs: seq<Record>, i: nat, offers: seq<Record>, now: int)
    requires i < |needs|
    ensures AllMatches(env, needs[i..], offers, now)
            == MatchesFor(env, needs[i], offers, now) + AllMatches(env, needs[i + 1..], offers, now)
  {
    assert needs[i..][1..] == needs[i + 1..];
  }

  lemma MatchesForUnfold(env: Env, need: Record, offers: seq<Record>, j: nat, others: seq<Record>, now: int)
    requires j < |offers|
    ensures MatchesFor(env, need, offers[j..], now) + others
            == (if Compatible(need, offers[j]) then [MatchRecord(env, need, offers[j], now)] else [])
               + (MatchesFor(env, need, offers[j + 1..], now) + others)
    ensures !Compatible(need, offers[j]) ==>
              MatchesFor(env, need, offers[j..], now) + others == MatchesFor(env, need, offers[j + 1..], now) + others
  {
    assert offers[j..][1..] == offers[j + 1..];
    hide MatchRecord, Compatible;
  }

  lemma MatchesForEnds(env: Env, need: Record, offers: seq<Record>, now: int)
    requires offers == []
    ensures MatchesFor(env, need, offers, now) == []
  {
  }
}
