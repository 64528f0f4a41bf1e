/** Exactly which records the bazaar takes, spelled out kind by kind, and what its
    matches say. */
module BazaarRecords {
  import opened Basics
  import opened Bazaar

  // ----- Financial fields, at any depth -----

  /** The member that the path leads to has a financial name, in any case. */
  ghost predicate NamesMoney(j: Json, path: seq<nat>)
    decreases |path|
  {
    && path != []
    && match j
       case JList(items) => path[0] < |items| && NamesMoney(items[path[0]], path[1..])
       case JObject(members) =>
         && path[0] < |members|
         && (if |path| == 1 then IsMoneyName(members[path[0]].0) else NamesMoney(members[path[0]].1, path[1..]))
       case _ => false
  }

  ghost predicate IsMoneyName(name: string) {
    Lower(name) in {"buyer", "seller", "price", "currency", "token", "wallet", "chain_id", "escrow", "payment"}
  }

  lemma {:induction false} PathIsFound(j: Json, path: seq<nat>)
    requires NamesMoney(j, path)
    ensures HasFinancial(j)
    decreases |path|
  {
    hide Lower;
    match j
    case JList(items) =>
      PathIsFound(items[path[0]], path[1..]);
    case JObject(members) =>
      if |path| == 1 {
        assert IsFinancialName(members[path[0]].0);
      } else {
        PathIsFound(members[path[0]].1, path[1..]);
      }
  }

  lemma {:induction false} FoundHasPath(j: Json) returns (path: seq<nat>)
    requires HasFinancial(j)
    ensures NamesMoney(j, path)
    decreases j
  {
    hide Lower;
    match j
    case JList(items) =>
      var i :| 0 <= i < |items| && HasFinancial(items[i]);
      var rest := FoundHasPath(items[i]);
      path := [i] + rest;
      assert path[1..] == rest;
    case JObject(members) =>
      var i :| 0 <= i < |members| && (IsFinancialName(members[i].0) || HasFinancial(members[i].1));
      if IsFinancialName(members[i].0) {
        path := [i];
      } else {
        var rest := FoundHasPath(members[i].1);
        path := [i] + rest;
        assert path[1..] == rest;
      }
  }

  /** The search finds a financial field exactly when some path leads to one. */
  lemma FinancialIff(j: Json)
    ensures HasFinancial(j) <==> exists path :: NamesMoney(j, path)
  {
    if HasFinancial(j) {
      var path := FoundHasPath(j);
    }
    if path :| NamesMoney(j, path) {
      PathIsFound(j, path);
    }
  }

  /** Nowhere in the payload is there a financial name: as a field of its own, or on
      any path below one. */
  ghost predicate IsMoneyless(p: Payload) {
    && (forall name :: Other(name) in p ==> !IsMoneyName(name))
    && (forall k, path :: k in p ==> !NamesMoney(p[k], path))
  }

  lemma MoneylessIff(p: Payload)
    ensures PayloadHasFinancial(p) <==> !IsMoneyless(p)
  {
    hide NamesMoney, HasFinancial, Lower;
    forall k | k in p ensures HasFinancial(p[k]) <==> exists path :: NamesMoney(p[k], path) {
      FinancialIff(p[k]);
    }
    if PayloadHasFinancial(p) {
      var k :| k in p && ((k.Other? && IsFinancialName(k.name)) || HasFinancial(p[k]));
      if k.Other? && IsFinancialName(k.name) {
        assert Other(k.name) in p && IsMoneyName(k.name);
      }
    }
    if !IsMoneyless(p) && !(forall name :: Other(name) in p ==> !IsMoneyName(name)) {
      var name :| Other(name) in p && IsMoneyName(name);
      assert IsFinancialName(Other(name).name);
    }
  }

  // ----- Which records are taken -----

  /** Signed by the key its issuer is named after, and of this moment. */
  ghost predicate IsSignedNow(env: Env, r: Record, now: int) {
    env.signed(r) && env.participant(r.publicKey) == Some(r.issuer) && r.createdMs <= now < r.expiresMs
  }

  /** A stored record of this kind that the field refers to. */
  ghost predicate Refers(env: Env, s: Book, r: Record, k: Key, kind: Kind, x: Record) {
    k in r.payload && Stored(env, s, x, kind) && Show(env, r.payload[k]) == env.recordId(x)
  }

  ghost predicate HasFields(r: Record, fields: set<Key>) {
    r.payload.Keys == fields
  }

  ghost predicate Says(r: Record, k: Key, j: Json) {
    k in r.payload && r.payload[k] == j
  }

  ghost predicate Repeats(r: Record, k: Key, x: Record, j: Key) {
    k in r.payload && j in x.payload && r.payload[k] == x.payload[j]
  }

  ghost predicate IsListing(r: Record) {
    && HasFields(r, {Title, Summary, Capability, Tags})
    && Tags in r.payload && r.payload[Tags].JList? && forall t :: t in r.payload[Tags].items ==> t.JText?
  }

  ghost predicate IsMatch(env: Env, s: Book, r: Record) {
    && HasFields(r, {NeedId, OfferId, RequesterId, ProviderId, Score, Reasons, Authorized})
    && r.issuer == env.matcherId && Says(r, Authorized, JBool(false))
    && exists need, offer :: Refers(env, s, r, NeedId, Need, need) && Refers(env, s, r, OfferId, Offer, offer)
                             && Says(r, RequesterId, JText(need.issuer)) && Says(r, ProviderId, JText(offer.issuer))
  }

  ghost predicate IsProposal(env: Env, s: Book, r: Record) {
    && HasFields(r, {MatchId, RequesterId, ProviderId, Terms}) && Terms in r.payload && r.payload[Terms].JObject?
    && exists m :: Refers(env, s, r, MatchId, Match, m) && Says(m, ProviderId, JText(r.issuer))
                   && Repeats(r, RequesterId, m, RequesterId) && Repeats(r, ProviderId, m, ProviderId)
  }

  ghost predicate IsAgreement(env: Env, s: Book, r: Record) {
    && HasFields(r, {ProposalId, RequesterId, ProviderId, AcceptedTermsDigest})
    && exists p :: Refers(env, s, r, ProposalId, Proposal, p) && Says(p, RequesterId, JText(r.issuer))
                   && Repeats(r, RequesterId, p, RequesterId) && Repeats(r, ProviderId, p, ProviderId)
                   && Terms in p.payload && Says(r, AcceptedTermsDigest, JText(env.digest(p.payload[Terms])))
  }

  ghost predicate IsFulfillment(env: Env, s: Book, r: Record) {
    && HasFields(r, {AgreementId, ArtifactDigest, Summary})
    && ArtifactDigest in r.payload && "sha256:" <= Show(env, r.payload[ArtifactDigest])
    && exists a :: Refers(env, s, r, AgreementId, Agreement, a) && Says(a, ProviderId, JText(r.issuer))
  }

  ghost predicate IsEvidence(env: Env, s: Book, r: Record) {
    && HasFields(r, {AgreementId, FulfillmentId, Outcome, Note})
    && (Says(r, Outcome, JText("accepted")) || Says(r, Outcome, JText("rejected")) || Says(r, Outcome, JText("disputed")))
    && exists a, f :: Refers(env, s, r, AgreementId, Agreement, a) && Refers(env, s, r, FulfillmentId, Fulfillment, f)
                      && Says(f, AgreementId, JText(env.recordId(a))) && Says(a, RequesterId, JText(r.issuer))
  }

  /** The record has its place in the lifecycle; all but needs and offers are private. */
  ghost predicate Fits(env: Env, s: Book, r: Record) {
    && (r.kind.Need? || r.kind.Offer? || r.visibility.Private?)
    && match r.kind
       case Need => IsListing(r)
       case Offer => IsListing(r)
       case Match => IsMatch(env, s, r)
       case Proposal => IsProposal(env, s, r)
       case Agreement => IsAgreement(env, s, r)
       case Fulfillment => IsFulfillment(env, s, r)
       case Evidence => IsEvidence(env, s, r)
       case Unsupported(_) => false
  }

  lemma OwnId(env: Env, s: Book, id: string)
    requires Sound(env, s) && id in s.records
    ensures env.recordId(s.records[id]) == id && s.records[id].payload.Keys == Shape(s.records[id].kind)
  {
    hide Genuine, PayloadHasFinancial;
    assert IsSound(env, s.records, id);
  }

  lemma ReferredIff(env: Env, s: Book, r: Record, k: Key, kind: Kind, x: Record)
    requires Sound(env, s) && k in r.payload
    ensures Referenced(env, s.records, r.payload, k, kind) == Some(x) <==> Refers(env, s, r, k, kind, x)
    ensures Refers(env, s, r, k, kind, x) ==> x.payload.Keys == Shape(kind)
  {
    hide Sound, Shape, Show;
    var id := Show(env, r.payload[k]);
    assert Show(env, Get(r.payload, k)) == id;
    if id in s.records {
      OwnId(env, s, id);
    }
  }

  lemma MatchFitsIff(env: Env, s: Book, r: Record)
    requires Sound(env, s) && r.kind.Match? && r.payload.Keys == Shape(Match)
    ensures MatchOk(env, s.records, r) <==> IsMatch(env, s, r)
  {
    var need, offer := Referenced(env, s.records, r.payload, NeedId, Need), Referenced(env, s.records, r.payload, OfferId, Offer);
    hide Sound, Refers, Referenced;
    forall x ensures need == Some(x) <==> Refers(env, s, r, NeedId, Need, x) {
      ReferredIff(env, s, r, NeedId, Need, x);
    }
    forall x ensures offer == Some(x) <==> Refers(env, s, r, OfferId, Offer, x) {
      ReferredIff(env, s, r, OfferId, Offer, x);
    }
    if need.Some? && offer.Some? {
      assert Refers(env, s, r, NeedId, Need, need.value) && Refers(env, s, r, OfferId, Offer, offer.value);
    }
  }

  lemma ProposalFitsIff(env: Env, s: Book, r: Record)
    requires Sound(env, s) && r.kind.Proposal? && r.payload.Keys == Shape(Proposal)
    ensures ProposalOk(env, s.records, r) <==> IsProposal(env, s, r)
  {
    var m := Referenced(env, s.records, r.payload, MatchId, Match);
    hide Sound, Refers, Referenced;
    forall x ensures m == Some(x) <==> Refers(env, s, r, MatchId, Match, x) {
      ReferredIff(env, s, r, MatchId, Match, x);
    }
    if m.Some? {
      ReferredIff(env, s, r, MatchId, Match, m.value);
    }
  }

  lemma AgreementFitsIff(env: Env, s: Book, r: Record)
    requires Sound(env, s) && r.kind.Agreement? && r.payload.Keys == Shape(Agreement)
    ensures AgreementOk(env, s.records, r) <==> IsAgreement(env, s, r)
  {
    var p := Referenced(env, s.records, r.payload, ProposalId, Proposal);
    hide Sound, Refers, Referenced;
    forall x ensures p == Some(x) <==> Refers(env, s, r, ProposalId, Proposal, x) {
      ReferredIff(env, s, r, ProposalId, Proposal, x);
    }
    if p.Some? {
      ReferredIff(env, s, r, ProposalId, Proposal, p.value);
    }
  }

  lemma FulfillmentFitsIff(env: Env, s: Book, r: Record)
    requires Sound(env, s) && r.kind.Fulfillment? && r.payload.Keys == Shape(Fulfillment)
    ensures FulfillmentOk(env, s.records, r) <==> IsFulfillment(env, s, r)
  {
    var a := Referenced(env, s.records, r.payload, AgreementId, Agreement);
    hide Sound, Refers, Referenced;
    forall x ensures a == Some(x) <==> Refers(env, s, r, AgreementId, Agreement, x) {
      ReferredIff(env, s, r, AgreementId, Agreement, x);
    }
    if a.Some? {
      ReferredIff(env, s, r, AgreementId, Agreement, a.value);
    }
  }

  lemma EvidenceFitsIff(env: Env, s: Book, r: Record)
    requires Sound(env, s) && r.kind.Evidence? && r.payload.Keys == Shape(Evidence)
    ensures EvidenceOk(env, s.records, r) <==> IsEvidence(env, s, r)
  {
    var a, f := Referenced(env, s.records, r.payload, AgreementId, Agreement),
                Referenced(env, s.records, r.payload, FulfillmentId, Fulfillment);
    hide Sound, Refers, Referenced;
    forall x ensures a == Some(x) <==> Refers(env, s, r, AgreementId, Agreement, x) {
      ReferredIff(env, s, r, AgreementId, Agreement, x);
    }
    forall x ensures f == Some(x) <==> Refers(env, s, r, FulfillmentId, Fulfillment, x) {
      ReferredIff(env, s, r, FulfillmentId, Fulfillment, x);
    }
    if a.Some? && f.Some? {
      ReferredIff(env, s, r, AgreementId, Agreement, a.value);
      ReferredIff(env, s, r, FulfillmentId, Fulfillment, f.value);
    }
  }

  lemma LifecycleIff(env: Env, s: Book, r: Record)
    requires Sound(env, s)
    ensures LifecycleOk(env, s.records, r) <==> Fits(env, s, r)
  {
    if r.payload.Keys == Shape(r.kind) {
      match r.kind
      case Match => MatchFitsIff(env, s, r);
      case Proposal => ProposalFitsIff(env, s, r);
      case Agreement => AgreementFitsIff(env, s, r);
      case Fulfillment => FulfillmentFitsIff(env, s, r);
      case Evidence => EvidenceFitsIff(env, s, r);
      case _ =>
    }
    hide MatchOk, ProposalOk, AgreementOk, FulfillmentOk, EvidenceOk, Sound;
  }

  /** Exactly which records a bazaar takes, in every state it can be in: signed by
      their issuer, of this moment, of a known kind and visibility, free of financial
      names, and either stored already or in their place in the lifecycle; and it
      stores them under their id, never over another. */
  lemma SubmitIff(env: Env, steps: seq<Step>, n: nat, r: Record, now: int)
    requires n <= |steps|
    ensures var s, id := After(env, steps, n), env.recordId(r);
      && (Submit(env, s, r, now).Ok? <==>
            && IsSignedNow(env, r, now) && !r.kind.Unsupported? && !r.visibility.Undefined? && IsMoneyless(r.payload)
            && (id in s.records || Fits(env, s, r)))
      && (Submit(env, s, r, now).Ok? ==>
            var (s', answer) := Submit(env, s, r, now).value;
            if id in s.records then s' == s && answer == s.records[id]
            else s'.records == s.records[id := r] && s'.order == s.order + [id] && answer == r)
  {
    ReachableIsSound(env, steps, n);
    LifecycleIff(env, After(env, steps, n), r);
    MoneylessIff(r.payload);
    hide LifecycleOk, Fits, IsMoneyless, PayloadHasFinancial, Sound, After;
  }

  /** Every record in the bazaar was signed by the key its issuer is named after. */
  lemma StoredIsSigned(env: Env, steps: seq<Step>, n: nat, id: string)
    requires n <= |steps| && id in After(env, steps, n).records
    ensures var r := After(env, steps, n).records[id];
      && env.recordId(r) == id && env.signed(r) && env.participant(r.publicKey) == Some(r.issuer)
      && IsMoneyless(r.payload) && Fits(env, After(env, steps, n), r)
  {
    var s := After(env, steps, n);
    ReachableIsSound(env, steps, n);
    assert IsSound(env, s.records, id);
    LifecycleIff(env, s, s.records[id]);
    MoneylessIff(s.records[id].payload);
    hide After, LifecycleOk, Fits, IsMoneyless, PayloadHasFinancial, Sound;
  }

  // ----- What a match says -----

  ghost function TagsOf(r: Record): set<Json> {
    if Tags in r.payload && r.payload[Tags].JList? then set t | t in r.payload[Tags].items else {}
  }

  lemma {:induction false} SharedAre(xs: seq<Json>, ys: set<Json>)
    ensures forall t :: t in SharedTags(xs, ys) <==> t in xs && t in ys
    ensures |SharedTags(xs, ys)| == |(set t | t in xs) * ys|
  {
    if xs == [] {
      assert (set t | t in xs) * ys == {};
    } else {
      var rest, all := (set t | t in xs[1..]) * ys, (set t | t in xs) * ys;
      SharedAre(xs[1..], ys);
      assert xs == [xs[0]] + xs[1..];
      if xs[0] in ys && xs[0] !in xs[1..] {
        assert all == rest + {xs[0]};
      } else {
        assert all == rest;
      }
    }
  }

  /** What the match of a need and an offer says: who they are and whose, and no
      authorization; private, signed by the matcher, and for an hour. */
  lemma MatchSays(env: Env, need: Record, offer: Record, now: int)
    ensures var m := MatchRecord(env, need, offer, now);
      && m.kind.Match? && m.visibility.Private? && m.issuer == env.matcherId && m.publicKey == env.matcherKey
      && m.createdMs == now && m.expiresMs == now + 60 * 60_000
      && m.nonce == env.pairNonce(env.recordId(need), env.recordId(offer)) && m.signature == env.sign(m.(signature := ""))
      && m.payload.Keys == {NeedId, OfferId, RequesterId, ProviderId, Score, Reasons, Authorized}
      && m.payload[NeedId] == JText(env.recordId(need)) && m.payload[OfferId] == JText(env.recordId(offer))
      && m.payload[RequesterId] == JText(need.issuer) && m.payload[ProviderId] == JText(offer.issuer)
      && m.payload[Authorized] == JBool(false)
  {
    hide SharedTags, TagSet;
  }

  /** And why: a score of 80 and 5 for each shared tag up to 100, with the capability
      and the shared tags as its reasons. */
  lemma MatchReasons(env: Env, need: Record, offer: Record, now: int)
    ensures var p, shared := MatchRecord(env, need, offer, now).payload, TagsOf(need) * TagsOf(offer);
      && Score in p && p[Score] == JInt(Min(100, 80 + 5 * |shared|))
      && Reasons in p && p[Reasons].JList? && |p[Reasons].items| == 1 + |shared|
      && p[Reasons].items[0] == JText("capability:" + Show(env, Get(need.payload, Capability)))
      && forall t :: t in shared ==> JText("tag:" + Show(env, t)) in p[Reasons].items
  {
    var tags := Get(need.payload, Tags);
    var xs, ys := if tags.JList? then tags.items else [], TagSet(Get(offer.payload, Tags));
    var shared := SharedTags(xs, ys);
    SharedAre(xs, ys);
    TagsAre(need);
    TagsAre(offer);
    hide SharedTags, TagSet, TagsOf;
    assert (set t | t in xs) == TagsOf(need);
    ReasonsName(env, shared, MatchRecord(env, need, offer, now).payload[Reasons].items,
                "capability:" + Show(env, Get(need.payload, Capability)));
    hide MatchRecord;
  }

  lemma TagsAre(r: Record)
    ensures TagSet(Get(r.payload, Tags)) == TagsOf(r)
    ensures Get(r.payload, Tags).JList? ==> (set t | t in Get(r.payload, Tags).items) == TagsOf(r)
    ensures !Get(r.payload, Tags).JList? ==> TagsOf(r) == {}
  {
  }

  lemma ReasonsName(env: Env, shared: seq<Json>, items: seq<Json>, first: string)
    requires items == [JText(first)] + seq(|shared|, i requires 0 <= i < |shared| => JText("tag:" + Show(env, shared[i])))
    ensures |items| == 1 + |shared| && items[0] == JText(first)
    ensures forall t :: t in shared ==> JText("tag:" + Show(env, t)) in items
  {
    forall t | t in shared ensures JText("tag:" + Show(env, t)) in items {
      var i :| 0 <= i < |shared| && shared[i] == t;
      assert items[i + 1] == JText("tag:" + Show(env, t));
    }
  }
}
