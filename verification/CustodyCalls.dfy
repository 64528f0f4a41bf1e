/** Exactly which calls the hub lets through: who was admitted and not removed,
    which nonces are still held, and what a request must be signed with -- told by
    the run before the call and spelled out over the primitives. */
module CustodyCalls {
  import opened Basics
  import opened Crypto
  import opened ControlObjects
  import opened Settlement
  import opened Custody
  import opened CustodySteps
  import opened CustodyRuns
  import RevisionVerdicts

  // ----- Who is admitted -----

  ghost predicate Admits(e: Entry, node: string) {
    e.op == AllowNode(node) && IsNodeId(node)
  }

  ghost predicate Removes(e: Entry, node: string) {
    e.op == DisallowNode(node) && IsNodeId(node)
  }

  /** The node was admitted before event `n`, and not removed since. */
  ghost predicate AdmittedAt(t: seq<Entry>, n: nat, node: string)
    requires n <= |t|
  {
    exists k :: 0 <= k < n && Admits(t[k], node) && forall j :: k < j < n ==> !Removes(t[j], node)
  }

  lemma AllowStep(env: Env, e: Entry, node: string)
    requires IsStep(env, e) && (IsAllowed(e.before, node) ==> IsNodeId(node))
    ensures IsAllowed(e.after, node) <==> Admits(e, node) || (IsAllowed(e.before, node) && !Removes(e, node))
  {
    if e.op.Call? {
      if Commits(e) {
        CommitSpec(env, e);
        ActKeepsAllow(env, Begun(env, e), e.op.auth, e.op.action, e.now);
      }
      hide IsNodeId, Transact, Begun;
    } else {
      hide IsNodeId, Transact;
    }
  }

  /** The allowlist says who was admitted and not removed since. */
  lemma {:induction false} AllowedIff(env: Env, t: seq<Entry>, n: nat, node: string)
    requires IsTrace(env, t) && n < |t|
    ensures IsAllowed(t[n].before, node) <==> AdmittedAt(t, n, node)
    ensures AdmittedAt(t, n, node) ==> IsNodeId(node)
  {
    hide IsStep, IsNodeId;
    if n == 0 {
    } else {
      AllowedIff(env, t, n - 1, node);
      assert ValidAt(env, t, n - 1) && LinkAt(t, n);
      AllowStep(env, t[n - 1], node);
      AdmittedStep(t, n, node);
    }
  }

  lemma AdmittedStep(t: seq<Entry>, n: nat, node: string)
    requires 0 < n <= |t|
    ensures AdmittedAt(t, n, node) <==> Admits(t[n - 1], node) || (AdmittedAt(t, n - 1, node) && !Removes(t[n - 1], node))
  {
    hide IsNodeId;
  }

  /** The node was admitted for the first time at event `k`. */
  ghost predicate FirstAdmits(t: seq<Entry>, k: nat, node: string)
    requires k < |t|
  {
    Admits(t[k], node) && forall j :: 0 <= j < k ==> !Admits(t[j], node)
  }

  /** The removal at event `k` took effect, and the node was not admitted since. */
  ghost predicate RemovedSince(t: seq<Entry>, k: nat, n: nat, node: string)
    requires k < n <= |t|
  {
    Removes(t[k], node) && AdmittedAt(t, k, node) && forall j :: k < j < n ==> !Admits(t[j], node)
  }

  lemma AllowRowStep(env: Env, e: Entry, node: string)
    requires IsStep(env, e) && (node in e.before.allow ==> IsNodeId(node))
    ensures node in e.after.allow <==> node in e.before.allow || Admits(e, node)
    ensures node in e.after.allow ==>
              e.after.allow[node]
              == if node !in e.before.allow then AllowRow(e.now, true, None)
                 else if Admits(e, node) && !IsAllowed(e.before, node) then AllowRow(e.before.allow[node].addedMs, true, None)
                 else if Removes(e, node) && IsAllowed(e.before, node) then AllowRow(e.before.allow[node].addedMs, false, Some(e.now))
                 else e.before.allow[node]
  {
    if e.op.Call? {
      if Commits(e) {
        CommitSpec(env, e);
        ActKeepsAllow(env, Begun(env, e), e.op.auth, e.op.action, e.now);
      }
      hide IsNodeId, Transact, Begun;
    } else {
      hide IsNodeId, Transact;
    }
  }

  /** The row of a node remembers when it was first admitted, and while it is removed
      when that happened; it is never deleted. */
  lemma {:induction false} AllowRowRemembers(env: Env, t: seq<Entry>, n: nat, node: string)
    requires IsTrace(env, t) && n < |t|
    ensures node in t[n].before.allow <==> exists k :: 0 <= k < n && Admits(t[k], node)
    ensures node in t[n].before.allow ==>
              var row := t[n].before.allow[node];
              && IsNodeId(node)
              && (exists k :: 0 <= k < n && FirstAdmits(t, k, node) && row.addedMs == t[k].now)
              && (if AdmittedAt(t, n, node) then row.enabled && row.disabledMs.None?
                  else !row.enabled && exists k :: 0 <= k < n && RemovedSince(t, k, n, node) && row.disabledMs == Some(t[k].now))
  {
    hide IsStep, IsNodeId;
    AllowedIff(env, t, n, node);
    if n == 0 {
    } else {
      AllowRowRemembers(env, t, n - 1, node);
      assert ValidAt(env, t, n - 1) && LinkAt(t, n);
      AllowRowStep(env, t[n - 1], node);
      AllowedIff(env, t, n - 1, node);
      AdmittedStep(t, n, node);
      RememberStep(t, n, node, t[n - 1].before.allow, t[n].before.allow);
    }
  }

  lemma RememberStep(t: seq<Entry>, n: nat, node: string, before: map<string, AllowRow>, after: map<string, AllowRow>)
    requires 0 < n <= |t|
    requires node in before <==> exists k :: 0 <= k < n - 1 && Admits(t[k], node)
    requires node in before ==>
               && (exists k :: 0 <= k < n - 1 && FirstAdmits(t, k, node) && before[node].addedMs == t[k].now)
               && (if AdmittedAt(t, n - 1, node) then before[node].enabled && before[node].disabledMs.None?
                   else !before[node].enabled && exists k :: 0 <= k < n - 1 && RemovedSince(t, k, n - 1, node) && before[node].disabledMs == Some(t[k].now))
    requires node in after <==> node in before || Admits(t[n - 1], node)
    requires node in after ==>
               after[node]
               == if node !in before then AllowRow(t[n - 1].now, true, None)
                  else if Admits(t[n - 1], node) && !before[node].enabled then AllowRow(before[node].addedMs, true, None)
                  else if Removes(t[n - 1], node) && before[node].enabled then AllowRow(before[node].addedMs, false, Some(t[n - 1].now))
                  else before[node]
    ensures node in after <==> exists k :: 0 <= k < n && Admits(t[k], node)
    ensures node in after ==>
              && (exists k :: 0 <= k < n && FirstAdmits(t, k, node) && after[node].addedMs == t[k].now)
              && (if AdmittedAt(t, n, node) then after[node].enabled && after[node].disabledMs.None?
                  else !after[node].enabled && exists k :: 0 <= k < n && RemovedSince(t, k, n, node) && after[node].disabledMs == Some(t[k].now))
  {
    AdmittedStep(t, n, node);
    hide IsNodeId, AdmittedAt;
    if node in after {
      if node in before {
        var k :| 0 <= k < n - 1 && FirstAdmits(t, k, node) && before[node].addedMs == t[k].now;
        assert 0 <= k < n && FirstAdmits(t, k, node) && after[node].addedMs == t[k].now;
        if !after[node].enabled && !before[node].enabled {
          var j :| 0 <= j < n - 1 && RemovedSince(t, j, n - 1, node) && before[node].disabledMs == Some(t[j].now);
          assert RemovedSince(t, j, n, node);
        } else if !after[node].enabled {
          assert RemovedSince(t, n - 1, n, node);
        }
      } else {
        assert FirstAdmits(t, n - 1, node);
      }
    }
  }

  // ----- Which nonces are held -----

  ghost predicate Purges(e: Entry) {
    Commits(e) || e.op.PurgeNow?
  }

  /** A request with this nonce committed at event `i`, and since then no purge came
      so late that it forgot it. */
  ghost predicate HeldSince(t: seq<Entry>, i: nat, n: nat, node: string, nonce: string, issuedMs: int)
    requires i < n <= |t|
  {
    && CommitsRequest(t[i], node, nonce, issuedMs)
    && forall k :: i < k < n && Purges(t[k]) ==> t[k].now <= issuedMs + NONCE_RETENTION_MS
  }

  ghost predicate HeldAt(t: seq<Entry>, n: nat, node: string, nonce: string, issuedMs: int)
    requires n <= |t|
  {
    exists i :: 0 <= i < n && HeldSince(t, i, n, node, nonce, issuedMs)
  }

  ghost predicate Records(s: Store, node: string, nonce: string, issuedMs: int) {
    (node, nonce) in s.nonces && s.nonces[(node, nonce)] == issuedMs
  }

  lemma HeldStep(t: seq<Entry>, n: nat, node: string, nonce: string, issuedMs: int)
    requires 0 < n <= |t|
    ensures HeldAt(t, n, node, nonce, issuedMs)
            <==> CommitsRequest(t[n - 1], node, nonce, issuedMs)
                 || (HeldAt(t, n - 1, node, nonce, issuedMs)
                     && (Purges(t[n - 1]) ==> t[n - 1].now <= issuedMs + NONCE_RETENTION_MS))
  {
    hide CommitsRequest, Purges;
    if CommitsRequest(t[n - 1], node, nonce, issuedMs) {
      assert HeldSince(t, n - 1, n, node, nonce, issuedMs);
    }
    if HeldAt(t, n, node, nonce, issuedMs) && !CommitsRequest(t[n - 1], node, nonce, issuedMs) {
      var i :| 0 <= i < n && HeldSince(t, i, n, node, nonce, issuedMs);
      assert HeldSince(t, i, n - 1, node, nonce, issuedMs);
    }
    if HeldAt(t, n - 1, node, nonce, issuedMs) && (Purges(t[n - 1]) ==> t[n - 1].now <= issuedMs + NONCE_RETENTION_MS) {
      var i :| 0 <= i < n - 1 && HeldSince(t, i, n - 1, node, nonce, issuedMs);
      assert HeldSince(t, i, n, node, nonce, issuedMs);
    }
  }

  lemma RecordStep(env: Env, e: Entry, node: string, nonce: string, issuedMs: int)
    requires IsStep(env, e)
    ensures Records(e.after, node, nonce, issuedMs)
            <==> CommitsRequest(e, node, nonce, issuedMs)
                 || (Records(e.before, node, nonce, issuedMs) && (Purges(e) ==> e.now <= issuedMs + NONCE_RETENTION_MS))
  {
    if Commits(e) {
      CommitSpec(env, e);
      ActKeepsNonces(env, Begun(env, e), e.op.auth, e.op.action, e.now);
      hide IsStep;
    } else {
      hide Transact;
    }
  }

  /** The nonce table holds exactly the nonces committed and not yet forgotten. */
  lemma {:induction false} NonceHeldIff(env: Env, t: seq<Entry>, n: nat, node: string, nonce: string, issuedMs: int)
    requires IsTrace(env, t) && n < |t|
    ensures Records(t[n].before, node, nonce, issuedMs) <==> HeldAt(t, n, node, nonce, issuedMs)
  {
    hide IsStep, CommitsRequest;
    if n == 0 {
    } else {
      NonceHeldIff(env, t, n - 1, node, nonce, issuedMs);
      assert ValidAt(env, t, n - 1) && LinkAt(t, n);
      RecordStep(env, t[n - 1], node, nonce, issuedMs);
      HeldStep(t, n, node, nonce, issuedMs);
    }
  }

  // ----- What is signed -----

  /** The node's own key signed the request, for these very bytes and about now. */
  ghost predicate IsSignedCall(c: Suite, r: Request, d: NodeDescriptor, body: Bytes, now: int) {
    && r.nodeId == d.nodeId && |r.signature| == 64
    && c.verify(d.signPublic, r.SigningFields(), r.signature)
    && r.bodySha256 == c.sha256(body) && |r.bodySha256| == 32
    && now - 5 * 60_000 <= r.issuedMs <= now + 5 * 60_000
  }

  ghost predicate IsWellFormed(r: Request) {
    && r.version == 1 && r.objectType == "anet.ahub-request.v1"
    && r.httpMethod in {"GET", "POST", "PUT", "DELETE"} && PathOk(r.path) && NonceOk(r.nonce)
  }

  lemma RequestHoldsIff(c: Suite, r: Request, d: NodeDescriptor, body: Bytes, now: int)
    ensures r.Verifies(c, d, body, now)
            <==> RevisionVerdicts.DescriptorHolds(c, d, now) && IsSignedCall(c, r, d, body, now) && IsWellFormed(r)
  {
    RevisionVerdicts.DescriptorHoldsIff(c, d, now);
    hide NodeDescriptor.Verifies, PathOk, NonceOk, IsNodeId, LabelOk, CapabilitiesOk, RevisionOk, Request.SigningFields;
  }

  /** The call of event `n` is signed, admitted, and not one that is still held. */
  ghost predicate Passes(env: Env, t: seq<Entry>, n: nat)
    requires n < |t| && t[n].op.Call?
  {
    var r, d, now := t[n].op.auth.request, t[n].op.auth.descriptor, t[n].now;
    && RevisionVerdicts.DescriptorHolds(env.crypto, d, now)
    && IsSignedCall(env.crypto, r, d, t[n].op.action.Body(), now) && IsWellFormed(r)
    && AdmittedAt(t, n, r.nodeId)
    && forall issuedMs :: issuedMs >= now - NONCE_RETENTION_MS ==> !HeldAt(t, n, r.nodeId, r.nonce, issuedMs)
  }

  /** A transaction begins exactly for such a call. */
  lemma CallPassesIff(env: Env, t: seq<Entry>, n: nat)
    requires IsTrace(env, t) && n < |t| && t[n].op.Call?
    ensures Begin(env, t[n].before, t[n].op.auth, t[n].op.action.Body(), t[n].now).Ok? <==> Passes(env, t, n)
  {
    var s, r, d, now := t[n].before, t[n].op.auth.request, t[n].op.auth.descriptor, t[n].now;
    hide IsStep, IsNodeId, PathOk, NonceOk, RevisionVerdicts.DescriptorHolds, Request.Verifies, HeldAt, Action.Body, AdmittedAt;
    FreshBegins(env, s, t[n].op.auth, t[n].op.action.Body(), now);
    RequestHoldsIff(env.crypto, r, d, t[n].op.action.Body(), now);
    AllowedIff(env, t, n, r.nodeId);
    forall issuedMs ensures Records(s, r.nodeId, r.nonce, issuedMs) <==> HeldAt(t, n, r.nodeId, r.nonce, issuedMs) {
      NonceHeldIff(env, t, n, r.nodeId, r.nonce, issuedMs);
    }
    if (r.nodeId, r.nonce) in s.nonces {
      assert Records(s, r.nodeId, r.nonce, s.nonces[(r.nodeId, r.nonce)]);
    }
  }

  /** Whatever the operation, a committed call was signed by a key pair of its
      caller's node id, over the hash of the very bytes it carried, within five
      minutes of the clock; the caller was admitted and not removed since, and its
      nonce was not held. */
  lemma CommitIsSigned(env: Env, t: seq<Entry>, n: nat)
    requires IsTrace(env, t) && n < |t| && Commits(t[n])
    ensures var c, r, d := env.crypto, t[n].op.auth.request, t[n].op.auth.descriptor;
      && |d.signPublic| == |d.boxPublic| == 32 && c.nodeId(d.signPublic, d.boxPublic) == Caller(t[n])
      && c.verify(d.signPublic, r.SigningFields(), r.signature)
      && c.verify(d.signPublic, d.SigningFields(), d.signature) && d.issuedMs <= t[n].now + 5 * 60_000 && t[n].now < d.expiresMs
      && r.bodySha256 == c.sha256(t[n].op.action.Body())
      && t[n].now - 5 * 60_000 <= r.issuedMs <= t[n].now + 5 * 60_000
      && r.version == 1 && r.objectType == "anet.ahub-request.v1"
      && AdmittedAt(t, n, r.nodeId)
      && forall issuedMs :: issuedMs >= t[n].now - NONCE_RETENTION_MS ==> !HeldAt(t, n, r.nodeId, r.nonce, issuedMs)
  {
    CallPassesIff(env, t, n);
    assert ValidAt(env, t, n);
    CommitBegins(env, t[n]);
    hide IsStep, IsNodeId, PathOk, NonceOk, HeldAt, Begin, AdmittedAt, LabelOk, CapabilitiesOk, RevisionOk;
    hide Request.SigningFields, NodeDescriptor.SigningFields;
  }

  lemma CommitBegins(env: Env, e: Entry)
    requires IsStep(env, e) && Commits(e)
    ensures Begin(env, e.before, e.op.auth, e.op.action.Body(), e.now).Ok?
  {
    hide Begin, Act;
  }

  /** One signature, one body: two commits with equal signed fields carried the
      same bytes, or two bodies with one hash. */
  lemma SignedFieldsFixBody(env: Env, t: seq<Entry>, i: nat, j: nat)
    requires IsTrace(env, t) && i < |t| && j < |t| && Commits(t[i]) && Commits(t[j])
    requires t[i].op.auth.request.SigningFields() == t[j].op.auth.request.SigningFields()
    ensures var a, b := t[i].op.action.Body(), t[j].op.action.Body();
      a == b || (a != b && env.crypto.sha256(a) == env.crypto.sha256(b))
  {
    CommitIsSigned(env, t, i);
    CommitIsSigned(env, t, j);
    FieldsDetermineRequest(t[i].op.auth.request, t[j].op.auth.request);
  }

  /** A removed node commits nothing until it is admitted again. */
  lemma RemovedNodeIsOut(env: Env, t: seq<Entry>, k: nat, n: nat, node: string)
    requires IsTrace(env, t) && k < n < |t| && Removes(t[k], node) && t[n].op.Call? && Caller(t[n]) == node
    requires forall j :: k < j < n ==> !Admits(t[j], node)
    ensures !Commits(t[n])
  {
    RemovedIsNotAdmitted(t, k, n, node);
    hide IsStep, AdmittedAt, Admits, Removes;
    if Commits(t[n]) {
      CommitIsSigned(env, t, n);
    }
  }

  lemma RemovedIsNotAdmitted(t: seq<Entry>, k: nat, n: nat, node: string)
    requires k < n <= |t| && Removes(t[k], node) && forall j :: k < j < n ==> !Admits(t[j], node)
    ensures !AdmittedAt(t, n, node)
  {
    hide IsNodeId;
    forall i | 0 <= i < n && Admits(t[i], node) ensures exists j :: i < j < n && Removes(t[j], node) {
      assert i < k < n && Removes(t[k], node);
    }
  }

  /** And the other way: `authenticate` answers every such call, and no other. */
  lemma AuthenticateIff(env: Env, t: seq<Entry>, n: nat)
    requires IsTrace(env, t) && n < |t| && t[n].op.Call? && t[n].op.action.Authenticate?
    ensures Commits(t[n]) <==> Passes(env, t, n)
    ensures Commits(t[n]) ==> t[n].answer == Ok(Done)
  {
    CallPassesIff(env, t, n);
    assert ValidAt(env, t, n);
    hide Begin, Passes;
  }
}
