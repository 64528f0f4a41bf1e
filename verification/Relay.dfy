/** Relay pairing: owners wait, peers join, sessions end, owners clean up or fail, each
    as one step under the coordinator's lock and in any order.  Endpoints and
    sessions are numbered, as object identity is what the coordinator compares. */
module Relay {
  import opened Basics
  import opened Custody

  // ----- What the coordinator stores -----

  datatype Coordinator = Coordinator(waiting: map<string, nat>, active: set<string>, byNode: map<string, int>)

  function Count(byNode: map<string, int>, node: string): int {
    if node in byNode then byNode[node] else 0
  }

  function Increment(byNode: map<string, int>, node: string): map<string, int> {
    byNode[node := Count(byNode, node) + 1]
  }

  function Decrement(byNode: map<string, int>, node: string): map<string, int> {
    var remaining := Count(byNode, node) - 1;
    if remaining > 0 then byNode[node := remaining] else byNode - {node}
  }

  datatype Verdict = Admitted | ReservationBusy | NodeBusy | OwnerNotWaiting

  function OwnerVerdict(limit: int, c: Coordinator, r: Reservation): Verdict {
    if r.reservationId in c.waiting || r.reservationId in c.active then ReservationBusy
    else if Count(c.byNode, r.owner) >= limit then NodeBusy
    else Admitted
  }

  function Waited(limit: int, c: Coordinator, r: Reservation, endpoint: nat): Coordinator {
    if OwnerVerdict(limit, c, r).Admitted? then c.(waiting := c.waiting[r.reservationId := endpoint]) else c
  }

  function PeerVerdict(limit: int, c: Coordinator, r: Reservation): Verdict {
    if r.reservationId !in c.waiting then OwnerNotWaiting
    else if r.reservationId in c.active then ReservationBusy
    else if Count(c.byNode, r.peer) >= limit then NodeBusy
    else Admitted
  }

  function Joined(limit: int, c: Coordinator, r: Reservation): Coordinator {
    if PeerVerdict(limit, c, r).Admitted? then
      Coordinator(c.waiting - {r.reservationId}, c.active + {r.reservationId},
                  Increment(Increment(c.byNode, r.owner), r.peer))
    else c
  }

  function Ended(c: Coordinator, r: Reservation): Coordinator {
    c.(active := c.active - {r.reservationId}, byNode := Decrement(Decrement(c.byNode, r.owner), r.peer))
  }

  function CleanedUp(c: Coordinator, reservationId: string, endpoint: nat): Coordinator {
    if reservationId in c.waiting && c.waiting[reservationId] == endpoint
    then c.(waiting := c.waiting - {reservationId})
    else c
  }

  // ----- The object -----

  class RelayCoordinator {
    const limit: int
    var waiting: map<string, nat>
    var active: set<string>
    var byNode: map<string, int>

    constructor (limit: int)
      ensures this.limit == limit && State() == Coordinator(map[], {}, map[])
    {
      this.limit := limit;
      waiting, active, byNode := map[], {}, map[];
    }

    function State(): Coordinator
      reads this
    {
      Coordinator(waiting, active, byNode)
    }

    method IncrementNode(node: string)
      modifies this`byNode
      ensures byNode == Increment(old(byNode), node)
      ensures Count(byNode, node) == Count(old(byNode), node) + 1
      ensures forall n :: n != node ==> Count(byNode, n) == Count(old(byNode), n)
    {
      var present := if node in byNode then byNode[node] else 0;
      byNode := byNode[node := present + 1];
    }

    method DecrementNode(node: string)
      modifies this`byNode
      ensures byNode == Decrement(old(byNode), node)
      ensures Count(byNode, node) == Max(0, Count(old(byNode), node) - 1)
      ensures node in byNode ==> byNode[node] > 0
      ensures forall n :: n != node ==> Count(byNode, n) == Count(old(byNode), n)
    {
      var remaining := (if node in byNode then byNode[node] else 0) - 1;
      if remaining > 0 {
        byNode := byNode[node := remaining];
      } else {
        byNode := byNode - {node};
      }
    }

    /** The locked part of an owner's arrival. */
    method WaitAsOwner(r: Reservation, endpoint: nat) returns (v: Verdict)
      modifies this
      ensures v == OwnerVerdict(limit, old(State()), r) && State() == Waited(limit, old(State()), r, endpoint)
    {
      if r.reservationId in waiting || r.reservationId in active {
        return ReservationBusy;
      }
      if Count(byNode, r.owner) >= limit {
        return NodeBusy;
      }
      waiting := waiting[r.reservationId := endpoint];
      return Admitted;
    }

    /** The locked part of a peer's arrival. */
    method JoinAsPeer(r: Reservation) returns (v: Verdict, owner: Option<nat>)
      modifies this
      ensures v == PeerVerdict(limit, old(State()), r) && State() == Joined(limit, old(State()), r)
      ensures owner == if v.Admitted? then Some(old(waiting)[r.reservationId]) else None
    {
      if r.reservationId !in waiting {
        return OwnerNotWaiting, None;
      }
      if r.reservationId in active {
        return ReservationBusy, None;
      }
      if Count(byNode, r.peer) >= limit {
        return NodeBusy, None;
      }
      owner := Some(waiting[r.reservationId]);
      waiting := waiting - {r.reservationId};
      active := active + {r.reservationId};
      IncrementNode(r.owner);
      IncrementNode(r.peer);
      v := Admitted;
    }

    /** The locked part of the end of a session. */
    method EndSession(r: Reservation)
      modifies this
      ensures State() == Ended(old(State()), r)
    {
      active := active - {r.reservationId};
      DecrementNode(r.owner);
      DecrementNode(r.peer);
    }

    /** The locked part of an owner's departure. */
    method CleanUp(reservationId: string, endpoint: nat)
      modifies this
      ensures State() == CleanedUp(old(State()), reservationId, endpoint)
    {
      if reservationId in waiting && waiting[reservationId] == endpoint {
        waiting := waiting - {reservationId};
      }
    }
  }

  // ----- The coordinator and the handlers running against it -----

  /** `owners` are the owner handlers admitted and not yet finished, `failed` those
      that ended because their waiting notice could not be sent, `sessions` the
      peer handlers joined and not yet finished, `paired` the endpoints ever
      paired, `used` every endpoint or session number taken so far. */
  datatype System = System(c: Coordinator, owners: map<nat, Reservation>, failed: map<nat, Reservation>,
                           sessions: map<nat, Reservation>, paired: set<nat>, used: set<nat>)
  {
    /** The owners that can have an entry: a failed one never cleans up. */
    function Holders(): map<nat, Reservation> {
      owners + failed
    }
  }

  const IDLE := System(Coordinator(map[], {}, map[]), map[], map[], map[], {}, {})

  datatype Step =
    | OwnerArrives(r: Reservation, endpoint: nat)
    | PeerArrives(r: Reservation, session: nat)
    | OwnerLeaves(endpoint: nat)
    | OwnerFails(endpoint: nat)
    | SessionEnds(session: nat)

  /** A handler finishes once, and only a node other than the owner is a peer.  An
      owner fails if sending its waiting notice does, however long that takes, and
      otherwise leaves. */
  predicate Enabled(s: System, step: Step) {
    match step
    case OwnerArrives(_, endpoint) => endpoint !in s.used
    case PeerArrives(r, session) => session !in s.used && r.owner != r.peer
    case OwnerLeaves(endpoint) => endpoint in s.owners
    case OwnerFails(endpoint) => endpoint in s.owners
    case SessionEnds(session) => session in s.sessions
  }

  predicate Pairs(limit: int, s: System, step: Step) {
    step.PeerArrives? && PeerVerdict(limit, s.c, step.r).Admitted?
  }

  /** The owner endpoint that a pairing step takes. */
  function Taken(limit: int, s: System, step: Step): nat
    requires Pairs(limit, s, step)
  {
    s.c.waiting[step.r.reservationId]
  }

  function Next(limit: int, s: System, step: Step): System
    requires Enabled(s, step)
  {
    match step
    case OwnerArrives(r, endpoint) =>
      System(Waited(limit, s.c, r, endpoint),
             if OwnerVerdict(limit, s.c, r).Admitted? then s.owners[endpoint := r] else s.owners,
             s.failed, s.sessions, s.paired, s.used + {endpoint})
    case PeerArrives(r, session) =>
      if !Pairs(limit, s, step) then s.(used := s.used + {session})
      else System(Joined(limit, s.c, r), s.owners, s.failed, s.sessions[session := r],
                  s.paired + {Taken(limit, s, step)}, s.used + {session})
    case OwnerLeaves(endpoint) =>
      s.(c := CleanedUp(s.c, s.owners[endpoint].reservationId, endpoint), owners := s.owners - {endpoint})
    case OwnerFails(endpoint) =>
      s.(owners := s.owners - {endpoint}, failed := s.failed[endpoint := s.owners[endpoint]])
    case SessionEnds(session) =>
      s.(c := Ended(s.c, s.sessions[session]), sessions := s.sessions - {session})
  }

  // ----- The invariant -----

  ghost function OwnedBy(sessions: map<nat, Reservation>, node: string): set<nat> {
    set p | p in sessions && sessions[p].owner == node
  }

  ghost function JoinedBy(sessions: map<nat, Reservation>, node: string): set<nat> {
    set p | p in sessions && sessions[p].peer == node
  }

  /** The counters are exactly the numbers of live sessions, and none is zero. */
  ghost predicate CountsLive(byNode: map<string, int>, sessions: map<nat, Reservation>) {
    && (forall n :: Count(byNode, n) == |OwnedBy(sessions, n)| + |JoinedBy(sessions, n)|)
    && (forall n :: n in byNode ==> byNode[n] > 0)
  }

  /** The active reservations are those of the live sessions, one session each. */
  ghost predicate ActiveLive(active: set<string>, sessions: map<nat, Reservation>) {
    && (forall p :: p in sessions ==> sessions[p].reservationId in active && sessions[p].owner != sessions[p].peer)
    && (forall rid :: rid in active ==> exists p :: p in sessions && sessions[p].reservationId == rid)
    && (forall p, q :: p in sessions && q in sessions && sessions[p].reservationId == sessions[q].reservationId ==> p == q)
  }

  ghost predicate HasEntry(waiting: map<string, nat>, e: nat, r: Reservation) {
    r.reservationId in waiting && waiting[r.reservationId] == e
  }

  ghost predicate EntriesLive(waiting: map<string, nat>, holders: map<nat, Reservation>, paired: set<nat>) {
    && (forall rid :: rid in waiting ==>
          var e := waiting[rid]; e in holders && holders[e].reservationId == rid && e !in paired)
    && (forall e :: e in holders && e !in paired ==> HasEntry(waiting, e, holders[e]))
  }

  /** Waiting entries are those of the owners, live or failed, never paired. */
  ghost predicate WaitingLive(s: System) {
    && s.c.waiting.Keys !! s.c.active
    && EntriesLive(s.c.waiting, s.Holders(), s.paired)
    && s.owners.Keys !! s.failed.Keys
    && s.Holders().Keys <= s.used && s.paired <= s.used && s.sessions.Keys <= s.used
  }

  ghost predicate PeersWithin(limit: int, sessions: map<nat, Reservation>) {
    forall n :: |JoinedBy(sessions, n)| <= Max(0, limit)
  }

  ghost predicate Inv(limit: int, s: System) {
    && WaitingLive(s)
    && ActiveLive(s.c.active, s.sessions)
    && CountsLive(s.c.byNode, s.sessions)
    && PeersWithin(limit, s.sessions)
  }

  lemma SessionAdded(sessions: map<nat, Reservation>, p: nat, r: Reservation, node: string)
    requires p !in sessions
    ensures |OwnedBy(sessions[p := r], node)| == |OwnedBy(sessions, node)| + if r.owner == node then 1 else 0
    ensures |JoinedBy(sessions[p := r], node)| == |JoinedBy(sessions, node)| + if r.peer == node then 1 else 0
  {
    OwnerAdded(sessions, p, r, node);
    PeerAdded(sessions, p, r, node);
  }

  lemma OwnerAdded(sessions: map<nat, Reservation>, p: nat, r: Reservation, node: string)
    requires p !in sessions
    ensures |OwnedBy(sessions[p := r], node)| == |OwnedBy(sessions, node)| + if r.owner == node then 1 else 0
  {
    var grown, ids := OwnedBy(sessions[p := r], node), OwnedBy(sessions, node);
    if r.owner == node {
      assert grown == ids + {p};
    } else {
      assert grown == ids;
    }
  }

  lemma PeerAdded(sessions: map<nat, Reservation>, p: nat, r: Reservation, node: string)
    requires p !in sessions
    ensures |JoinedBy(sessions[p := r], node)| == |JoinedBy(sessions, node)| + if r.peer == node then 1 else 0
  {
    var grown, ids := JoinedBy(sessions[p := r], node), JoinedBy(sessions, node);
    if r.peer == node {
      assert grown == ids + {p};
    } else {
      assert grown == ids;
    }
  }

  lemma SessionRemoved(sessions: map<nat, Reservation>, p: nat, node: string)
    requires p in sessions
    ensures |OwnedBy(sessions - {p}, node)| == |OwnedBy(sessions, node)| - if sessions[p].owner == node then 1 else 0
    ensures |JoinedBy(sessions - {p}, node)| == |JoinedBy(sessions, node)| - if sessions[p].peer == node then 1 else 0
  {
    SessionAdded(sessions - {p}, p, sessions[p], node);
    assert (sessions - {p})[p := sessions[p]] == sessions;
  }

  lemma JoinKeepsCounts(byNode: map<string, int>, sessions: map<nat, Reservation>, p: nat, r: Reservation)
    requires CountsLive(byNode, sessions) && p !in sessions
    ensures CountsLive(Increment(Increment(byNode, r.owner), r.peer), sessions[p := r])
  {
    var byNode' := Increment(Increment(byNode, r.owner), r.peer);
    forall n ensures Count(byNode', n) == |OwnedBy(sessions[p := r], n)| + |JoinedBy(sessions[p := r], n)| {
      SessionAdded(sessions, p, r, n);
    }
    assert Count(byNode, r.owner) >= 0 && Count(byNode, r.peer) >= 0;
  }

  lemma EndKeepsCounts(byNode: map<string, int>, sessions: map<nat, Reservation>, p: nat)
    requires CountsLive(byNode, sessions) && p in sessions
    ensures CountsLive(Decrement(Decrement(byNode, sessions[p].owner), sessions[p].peer), sessions - {p})
  {
    var r := sessions[p];
    var byNode' := Decrement(Decrement(byNode, r.owner), r.peer);
    forall n ensures Count(byNode', n) == |OwnedBy(sessions - {p}, n)| + |JoinedBy(sessions - {p}, n)| {
      SessionRemoved(sessions, p, n);
      assert Count(byNode, n) == |OwnedBy(sessions, n)| + |JoinedBy(sessions, n)|;
    }
  }

  lemma JoinKeepsPeers(limit: int, byNode: map<string, int>, sessions: map<nat, Reservation>, p: nat, r: Reservation)
    requires CountsLive(byNode, sessions) && PeersWithin(limit, sessions) && p !in sessions
    requires Count(byNode, r.peer) < limit
    ensures PeersWithin(limit, sessions[p := r])
  {
    var more := sessions[p := r];
    forall n ensures |JoinedBy(more, n)| <= Max(0, limit) {
      SessionAdded(sessions, p, r, n);
    }
  }

  lemma EndKeepsPeers(limit: int, sessions: map<nat, Reservation>, p: nat)
    requires PeersWithin(limit, sessions) && p in sessions
    ensures PeersWithin(limit, sessions - {p})
  {
    forall n ensures |JoinedBy(sessions - {p}, n)| <= Max(0, limit) {
      SessionRemoved(sessions, p, n);
    }
  }

  lemma JoinKeepsActive(active: set<string>, sessions: map<nat, Reservation>, p: nat, r: Reservation)
    requires ActiveLive(active, sessions) && p !in sessions && r.reservationId !in active && r.owner != r.peer
    ensures ActiveLive(active + {r.reservationId}, sessions[p := r])
  {
    var more := sessions[p := r];
    forall rid | rid in active + {r.reservationId} ensures exists q :: q in more && more[q].reservationId == rid {
      if rid == r.reservationId {
        assert p in more && more[p].reservationId == rid;
      } else {
        var q :| q in sessions && sessions[q].reservationId == rid;
        assert q in more && more[q].reservationId == rid;
      }
    }
  }

  lemma EndKeepsActive(active: set<string>, sessions: map<nat, Reservation>, p: nat)
    requires ActiveLive(active, sessions) && p in sessions
    ensures ActiveLive(active - {sessions[p].reservationId}, sessions - {p})
  {
    var fewer := sessions - {p};
    forall rid | rid in active - {sessions[p].reservationId} ensures exists q :: q in fewer && fewer[q].reservationId == rid {
      var q :| q in sessions && sessions[q].reservationId == rid;
      assert q in fewer && fewer[q].reservationId == rid;
    }
  }

  lemma NextHolders(limit: int, s: System, step: Step)
    requires WaitingLive(s) && Enabled(s, step)
    ensures match step
            case OwnerArrives(r, endpoint) =>
              Next(limit, s, step).Holders() == if OwnerVerdict(limit, s.c, r).Admitted? then s.Holders()[endpoint := r] else s.Holders()
            case OwnerLeaves(endpoint) => Next(limit, s, step).Holders() == s.Holders() - {endpoint}
            case _ => Next(limit, s, step).Holders() == s.Holders()
  {
    hide Waited, Joined, Ended, CleanedUp, OwnerVerdict, PeerVerdict;
    if step.OwnerArrives? {
      assert step.endpoint !in s.Holders();
    }
  }

  lemma ArrivalKeepsEntries(waiting: map<string, nat>, holders: map<nat, Reservation>, paired: set<nat>, e: nat, r: Reservation)
    requires EntriesLive(waiting, holders, paired)
    requires r.reservationId !in waiting && e !in holders && e !in paired
    ensures EntriesLive(waiting[r.reservationId := e], holders[e := r], paired)
  {
  }

  lemma PairingKeepsEntries(waiting: map<string, nat>, holders: map<nat, Reservation>, paired: set<nat>, rid: string)
    requires EntriesLive(waiting, holders, paired) && rid in waiting
    ensures EntriesLive(waiting - {rid}, holders, paired + {waiting[rid]})
  {
  }

  lemma CleanupKeepsEntries(c: Coordinator, holders: map<nat, Reservation>, paired: set<nat>, e: nat)
    requires EntriesLive(c.waiting, holders, paired) && e in holders
    ensures EntriesLive(CleanedUp(c, holders[e].reservationId, e).waiting, holders - {e}, paired)
  {
  }

  lemma NextKeepsWaiting(limit: int, s: System, step: Step)
    requires WaitingLive(s) && ActiveLive(s.c.active, s.sessions) && Enabled(s, step)
    ensures WaitingLive(Next(limit, s, step))
  {
    NextHolders(limit, s, step);
    match step
    case OwnerArrives(r, endpoint) =>
      if OwnerVerdict(limit, s.c, r).Admitted? {
        ArrivalKeepsEntries(s.c.waiting, s.Holders(), s.paired, endpoint, r);
      }
      hide EntriesLive, ActiveLive;
    case PeerArrives(r, session) =>
      if Pairs(limit, s, step) {
        PairingKeepsEntries(s.c.waiting, s.Holders(), s.paired, r.reservationId);
      }
      EntriesHeld(s);
      hide EntriesLive, ActiveLive, Increment;
    case OwnerLeaves(endpoint) =>
      CleanupKeepsEntries(s.c, s.Holders(), s.paired, endpoint);
      hide EntriesLive, ActiveLive;
    case OwnerFails(endpoint) =>
      hide EntriesLive, ActiveLive;
    case SessionEnds(session) =>
      hide EntriesLive, Decrement;
  }

  lemma EntriesHeld(s: System)
    requires WaitingLive(s)
    ensures forall rid :: rid in s.c.waiting ==> s.c.waiting[rid] in s.used
  {
  }

  lemma NextKeepsInv(limit: int, s: System, step: Step)
    requires Inv(limit, s) && Enabled(s, step)
    ensures Inv(limit, Next(limit, s, step))
  {
    NextKeepsWaiting(limit, s, step);
    hide WaitingLive;
    match step
    case PeerArrives(r, session) =>
      if Pairs(limit, s, step) {
        assert session !in s.sessions by { SessionsAreUsed(s); }
        JoinKeepsCounts(s.c.byNode, s.sessions, session, r);
        JoinKeepsPeers(limit, s.c.byNode, s.sessions, session, r);
        JoinKeepsActive(s.c.active, s.sessions, session, r);
      }
    case SessionEnds(session) =>
      EndKeepsCounts(s.c.byNode, s.sessions, session);
      EndKeepsPeers(limit, s.sessions, session);
      EndKeepsActive(s.c.active, s.sessions, session);
    case _ =>
  }

  lemma SessionsAreUsed(s: System)
    requires WaitingLive(s)
    ensures s.sessions.Keys <= s.used
  {
  }

  // ----- Runs: any interleaving of handlers -----

  ghost predicate IsRun(limit: int, states: seq<System>, steps: seq<Step>) {
    && |states| == |steps| + 1
    && states[0] == IDLE
    && forall k :: 0 <= k < |steps| ==> Enabled(states[k], steps[k]) && states[k + 1] == Next(limit, states[k], steps[k])
  }

  /** Under every interleaving: waiting and active reservations are disjoint,
      counters are exact with no zero entries, and sessions a node joined as peer
      stay within the limit. */
  lemma {:induction false} AccountingHolds(limit: int, states: seq<System>, steps: seq<Step>, n: nat)
    requires IsRun(limit, states, steps) && n < |states|
    ensures Inv(limit, states[n])
  {
    if n == 0 {
      forall k ensures |OwnedBy(IDLE.sessions, k)| == 0 && |JoinedBy(IDLE.sessions, k)| == 0 {
        assert OwnedBy(IDLE.sessions, k) == {} && JoinedBy(IDLE.sessions, k) == {};
      }
    } else {
      AccountingHolds(limit, states, steps, n - 1);
      NextKeepsInv(limit, states[n - 1], steps[n - 1]);
    }
  }

  lemma {:induction false} PairedForever(limit: int, states: seq<System>, steps: seq<Step>, i: nat, j: nat)
    requires IsRun(limit, states, steps) && i <= j < |states|
    ensures states[i].paired <= states[j].paired
    decreases j
  {
    if i == j {
    } else {
      PairedForever(limit, states, steps, i, j - 1);
      assert states[j] == Next(limit, states[j - 1], steps[j - 1]);
    }
  }

  /** No owner endpoint is ever paired twice. */
  lemma PairedAtMostOnce(limit: int, states: seq<System>, steps: seq<Step>, i: nat, j: nat)
    requires IsRun(limit, states, steps) && i < j < |steps|
    requires Pairs(limit, states[i], steps[i]) && Pairs(limit, states[j], steps[j])
    ensures Taken(limit, states[i], steps[i]) != Taken(limit, states[j], steps[j])
  {
    AccountingHolds(limit, states, steps, j);
    PairedForever(limit, states, steps, i + 1, j);
    assert Taken(limit, states[i], steps[i]) in states[i + 1].paired;
  }

  /** An owner keeps waiting until it leaves itself or is paired: the cleanup of
      an earlier owner of the same reservation never removes it. */
  lemma {:induction false} WaitsUntil(limit: int, states: seq<System>, steps: seq<Step>, i: nat, j: nat, rid: string)
    requires IsRun(limit, states, steps) && i <= j < |states| && rid in states[i].c.waiting
    requires forall k :: i <= k < j ==> steps[k] != OwnerLeaves(states[i].c.waiting[rid])
    requires forall k :: i <= k < j && Pairs(limit, states[k], steps[k]) ==>
      Taken(limit, states[k], steps[k]) != states[i].c.waiting[rid]
    ensures rid in states[j].c.waiting && states[j].c.waiting[rid] == states[i].c.waiting[rid]
    decreases j
  {
    if i == j {
    } else {
      WaitsUntil(limit, states, steps, i, j - 1, rid);
      AccountingHolds(limit, states, steps, j - 1);
      assert states[j] == Next(limit, states[j - 1], steps[j - 1]);
    }
  }

  /** When every session has ended nothing is counted or reserved any more.  When
      every owner handler has ended as well, the coordinator is as it was created
      exactly when each owner whose waiting notice failed was paired. */
  lemma AllEndedIsEmpty(limit: int, states: seq<System>, steps: seq<Step>, n: nat)
    requires IsRun(limit, states, steps) && n < |states| && states[n].sessions == map[]
    ensures states[n].c.active == {} && states[n].c.byNode == map[]
    ensures states[n].owners == map[] ==> (states[n].c == IDLE.c <==> states[n].failed.Keys <= states[n].paired)
  {
    AccountingHolds(limit, states, steps, n);
    var s := states[n];
    forall k ensures k !in s.c.byNode {
      assert OwnedBy(s.sessions, k) == {} && JoinedBy(s.sessions, k) == {};
      assert Count(s.c.byNode, k) == 0;
    }
    if s.owners == map[] && !(s.failed.Keys <= s.paired) {
      var e :| e in s.failed && e !in s.paired;
      assert HasEntry(s.c.waiting, e, s.Holders()[e]);
    }
  }

  lemma {:induction false} FailedForever(limit: int, states: seq<System>, steps: seq<Step>, i: nat, j: nat, e: nat)
    requires IsRun(limit, states, steps) && i <= j < |states| && e in states[i].failed
    ensures e in states[j].failed && states[j].failed[e] == states[i].failed[e]
    decreases j
  {
    if i == j {
    } else {
      FailedForever(limit, states, steps, i, j - 1, e);
      AccountingHolds(limit, states, steps, j - 1);
      assert Enabled(states[j - 1], steps[j - 1]) && states[j] == Next(limit, states[j - 1], steps[j - 1]);
    }
  }

  /** An owner whose waiting notice failed keeps its entry until a peer joins it,
      and for that long every owner of its reservation is turned away. */
  lemma FailedOwnerBlocks(limit: int, states: seq<System>, steps: seq<Step>, i: nat, j: nat, e: nat)
    requires IsRun(limit, states, steps) && i <= j < |states| && e in states[i].failed
    ensures HasEntry(states[j].c.waiting, e, states[i].failed[e]) <==> e !in states[j].paired
    ensures e !in states[j].paired ==> OwnerVerdict(limit, states[j].c, states[i].failed[e]).ReservationBusy?
  {
    FailedForever(limit, states, steps, i, j, e);
    AccountingHolds(limit, states, steps, j);
    assert states[j].Holders()[e] == states[i].failed[e];
  }

  /** The shortest such run: nobody is left, and yet the reservation is busy. */
  lemma EntryLeftBehind(limit: int, r: Reservation) returns (states: seq<System>, steps: seq<Step>)
    requires limit > 0
    ensures steps == [OwnerArrives(r, 0), OwnerFails(0)] && IsRun(limit, states, steps)
    ensures states[2].owners == map[] && states[2].sessions == map[] && states[2].c != IDLE.c
    ensures OwnerVerdict(limit, states[2].c, r).ReservationBusy?
  {
    steps := [OwnerArrives(r, 0), OwnerFails(0)];
    var s1 := Next(limit, IDLE, steps[0]);
    states := [IDLE, s1, Next(limit, s1, steps[1])];
  }

  // ----- Who is let in -----

  /** An owner of the reservation arrived, was never paired, and has not left. */
  ghost predicate OwnerWaits(s: System, rid: string) {
    exists e :: e in s.Holders() && e !in s.paired && s.Holders()[e].reservationId == rid
  }

  ghost predicate SessionRuns(s: System, rid: string) {
    exists p :: p in s.sessions && s.sessions[p].reservationId == rid
  }

  ghost function Sessions(s: System, node: string): int {
    |OwnedBy(s.sessions, node)| + |JoinedBy(s.sessions, node)|
  }

  lemma EntriesAreWaits(s: System, rid: string)
    requires EntriesLive(s.c.waiting, s.Holders(), s.paired)
    ensures rid in s.c.waiting <==> OwnerWaits(s, rid)
  {
    if OwnerWaits(s, rid) {
      var e :| e in s.Holders() && e !in s.paired && s.Holders()[e].reservationId == rid;
      assert HasEntry(s.c.waiting, e, s.Holders()[e]);
    }
  }

  /** Exactly who is let in, in every state of every run: an owner unless its
      reservation has an owner waiting or a session running, or its node as many
      sessions as the limit; a peer when an owner waits for it and its node has
      fewer.  No peer is ever told that a reservation is busy. */
  lemma VerdictsIff(limit: int, states: seq<System>, steps: seq<Step>, n: nat, r: Reservation)
    requires IsRun(limit, states, steps) && n < |states|
    ensures var s := states[n];
      && OwnerVerdict(limit, s.c, r)
         == (if OwnerWaits(s, r.reservationId) || SessionRuns(s, r.reservationId) then ReservationBusy
             else if Sessions(s, r.owner) < limit then Admitted else NodeBusy)
      && PeerVerdict(limit, s.c, r)
         == (if !OwnerWaits(s, r.reservationId) then OwnerNotWaiting
             else if Sessions(s, r.peer) < limit then Admitted else NodeBusy)
  {
    AccountingHolds(limit, states, steps, n);
    EntriesAreWaits(states[n], r.reservationId);
    hide EntriesLive, OwnerWaits, PeersWithin, System.Holders;
  }

  /** What pairing does: the session runs, for both nodes, and the owner waits no more. */
  lemma PairingStarts(limit: int, states: seq<System>, steps: seq<Step>, n: nat)
    requires IsRun(limit, states, steps) && n < |steps| && steps[n].PeerArrives?
    ensures var s, s', r := states[n], states[n + 1], steps[n].r;
      if OwnerWaits(s, r.reservationId) && Sessions(s, r.peer) < limit then
        && s'.sessions == s.sessions[steps[n].session := r] && steps[n].session !in s.sessions
        && SessionRuns(s', r.reservationId) && !OwnerWaits(s', r.reservationId)
      else s'.sessions == s.sessions && s'.c == s.c
  {
    AccountingHolds(limit, states, steps, n);
    AccountingHolds(limit, states, steps, n + 1);
    VerdictsIff(limit, states, steps, n, steps[n].r);
    EntriesAreWaits(states[n + 1], steps[n].r.reservationId);
    hide EntriesLive, OwnerWaits, PeersWithin, CountsLive, System.Holders, Increment;
    var s, s', step := states[n], states[n + 1], steps[n];
    assert Enabled(s, step) && s' == Next(limit, s, step);
    if Pairs(limit, s, step) {
      assert step.session in s'.sessions && s'.sessions[step.session] == step.r;
    }
  }

  // ----- The owner's own limit -----

  /** Sessions of the node, as owner or peer. */
  ghost function Load(s: System, node: string): int {
    Count(s.c.byNode, node)
  }

  /** Joining does not look at the owner's capacity: over a whole run a node stays
      within its limit exactly when each pairing of a reservation it owns found
      it with capacity left. */
  lemma OwnerWithinLimitIff(limit: int, states: seq<System>, steps: seq<Step>, node: string)
    requires IsRun(limit, states, steps) && limit >= 0
    ensures (forall k :: 0 <= k < |states| ==> Load(states[k], node) <= limit)
            <==> (forall k :: 0 <= k < |steps| && Pairs(limit, states[k], steps[k]) && steps[k].r.owner == node ==>
                    Load(states[k], node) < limit)
  {
    if forall k :: 0 <= k < |states| ==> Load(states[k], node) <= limit {
      forall k | 0 <= k < |steps| && Pairs(limit, states[k], steps[k]) && steps[k].r.owner == node
        ensures Load(states[k], node) < limit
      {
        LoadStep(limit, states, steps, k, node);
        assert Load(states[k + 1], node) <= limit;
      }
    }
    if forall k :: 0 <= k < |steps| && Pairs(limit, states[k], steps[k]) && steps[k].r.owner == node ==> Load(states[k], node) < limit {
      forall k | 0 <= k < |states| ensures Load(states[k], node) <= limit {
        LoadStaysWithin(limit, states, steps, node, k);
      }
    }
  }

  /** What one step does to the sessions of a node. */
  lemma LoadStep(limit: int, states: seq<System>, steps: seq<Step>, k: nat, node: string)
    requires IsRun(limit, states, steps) && k < |steps|
    ensures Load(states[k + 1], node)
            == if Pairs(limit, states[k], steps[k]) then
                 Load(states[k], node) + if steps[k].r.owner == node || steps[k].r.peer == node then 1 else 0
               else if steps[k].SessionEnds? then
                 Load(states[k], node)
                 - (if states[k].sessions[steps[k].session].owner == node || states[k].sessions[steps[k].session].peer == node
                    then 1 else 0)
               else Load(states[k], node)
  {
    AccountingHolds(limit, states, steps, k);
    AccountingHolds(limit, states, steps, k + 1);
    var s, step := states[k], steps[k];
    assert Enabled(s, step) && states[k + 1] == Next(limit, s, step);
    if step.SessionEnds? {
      SessionRemoved(s.sessions, step.session, node);
    }
  }

  lemma {:induction false} LoadStaysWithin(limit: int, states: seq<System>, steps: seq<Step>, node: string, n: nat)
    requires IsRun(limit, states, steps) && limit >= 0 && n < |states|
    requires forall k :: 0 <= k < |steps| && Pairs(limit, states[k], steps[k]) && steps[k].r.owner == node ==>
      Load(states[k], node) < limit
    ensures Load(states[n], node) <= limit
  {
    if n == 0 {
    } else {
      LoadStaysWithin(limit, states, steps, node, n - 1);
      LoadStep(limit, states, steps, n - 1, node);
      hide IsRun;
      assert Pairs(limit, states[n - 1], steps[n - 1]) && steps[n - 1].r.peer == node ==> Load(states[n - 1], node) < limit;
    }
  }

  // ----- A bound that counts outstanding waits -----

  /** The reservations on which the node waits as owner. */
  ghost function Waits(s: System, node: string): set<string> {
    WaitsIn(s.c.waiting, s.Holders(), node)
  }

  ghost function WaitsIn(waiting: map<string, nat>, owners: map<nat, Reservation>, node: string): set<string> {
    set rid | rid in waiting && waiting[rid] in owners && owners[waiting[rid]].owner == node
  }

  lemma WaitAdded(waiting: map<string, nat>, owners: map<nat, Reservation>, rid: string, e: nat, r: Reservation, node: string)
    requires rid !in waiting && e !in owners && forall x :: x in waiting ==> waiting[x] in owners
    ensures |WaitsIn(waiting[rid := e], owners[e := r], node)| == |WaitsIn(waiting, owners, node)| + if r.owner == node then 1 else 0
  {
    var more := owners[e := r];
    assert WaitsIn(waiting, more, node) == WaitsIn(waiting, owners, node);
    WaitEntered(waiting, more, rid, e, node);
  }

  lemma WaitEntered(waiting: map<string, nat>, owners: map<nat, Reservation>, rid: string, e: nat, node: string)
    requires rid !in waiting && e in owners
    ensures |WaitsIn(waiting[rid := e], owners, node)| == |WaitsIn(waiting, owners, node)| + if owners[e].owner == node then 1 else 0
  {
    var more := waiting[rid := e];
    assert more - {rid} == waiting;
    WaitRemoved(more, owners, rid, node);
  }

  lemma WaitRemoved(waiting: map<string, nat>, owners: map<nat, Reservation>, rid: string, node: string)
    requires rid in waiting && waiting[rid] in owners
    ensures |WaitsIn(waiting - {rid}, owners, node)|
            == |WaitsIn(waiting, owners, node)| - if owners[waiting[rid]].owner == node then 1 else 0
  {
    var fewer, ids := WaitsIn(waiting - {rid}, owners, node), WaitsIn(waiting, owners, node);
    if owners[waiting[rid]].owner == node {
      assert ids == fewer + {rid};
    } else {
      assert ids == fewer;
    }
  }

  /** Sessions and outstanding waits together. */
  ghost function Commitments(s: System, node: string): int {
    Load(s, node) + |Waits(s, node)|
  }

  /** The step admits the node: to wait as owner, or into a session as peer. */
  ghost predicate Admits(limit: int, s: System, step: Step, node: string) {
    || (step.OwnerArrives? && step.r.owner == node && OwnerVerdict(limit, s.c, step.r).Admitted?)
    || (Pairs(limit, s, step) && step.r.peer == node)
  }

  /** Reservation ids are primary keys: whoever presents one presents the same owner. */
  ghost predicate OwnersFixed(steps: seq<Step>, ownerOf: string -> string) {
    forall k :: 0 <= k < |steps| && (steps[k].OwnerArrives? || steps[k].PeerArrives?) ==>
      steps[k].r.owner == ownerOf(steps[k].r.reservationId)
  }

  lemma {:induction false} OwnersAreFixed(limit: int, states: seq<System>, steps: seq<Step>, ownerOf: string -> string, n: nat)
    requires IsRun(limit, states, steps) && OwnersFixed(steps, ownerOf) && n < |states|
    ensures forall e :: e in states[n].Holders() ==>
              states[n].Holders()[e].owner == ownerOf(states[n].Holders()[e].reservationId)
  {
    if n == 0 {
    } else {
      OwnersAreFixed(limit, states, steps, ownerOf, n - 1);
      AccountingHolds(limit, states, steps, n - 1);
      NextHolders(limit, states[n - 1], steps[n - 1]);
      hide Next, Inv, System.Holders;
      assert Enabled(states[n - 1], steps[n - 1]) && states[n] == Next(limit, states[n - 1], steps[n - 1]);
    }
  }

  lemma WaitsArrive(limit: int, s: System, step: Step, node: string)
    requires Inv(limit, s) && Enabled(s, step) && step.OwnerArrives?
    ensures |Waits(Next(limit, s, step), node)|
            == |Waits(s, node)| + if step.r.owner == node && OwnerVerdict(limit, s.c, step.r).Admitted? then 1 else 0
  {
    hide WaitsIn, ActiveLive, CountsLive, PeersWithin;
    if OwnerVerdict(limit, s.c, step.r).Admitted? {
      assert Next(limit, s, step).Holders() == s.Holders()[step.endpoint := step.r];
      WaitAdded(s.c.waiting, s.Holders(), step.r.reservationId, step.endpoint, step.r, node);
    }
  }

  lemma WaitsPair(limit: int, s: System, step: Step, node: string)
    requires Inv(limit, s) && Enabled(s, step) && Pairs(limit, s, step)
    requires s.c.waiting[step.r.reservationId] in s.Holders()
    requires s.Holders()[s.c.waiting[step.r.reservationId]].owner == step.r.owner
    ensures |Waits(Next(limit, s, step), node)| == |Waits(s, node)| - if step.r.owner == node then 1 else 0
  {
    hide WaitsIn, ActiveLive, CountsLive, PeersWithin;
    WaitRemoved(s.c.waiting, s.Holders(), step.r.reservationId, node);
  }

  lemma WaitsLeave(limit: int, s: System, step: Step, node: string)
    requires Inv(limit, s) && Enabled(s, step) && !step.OwnerArrives? && !Pairs(limit, s, step)
    ensures Waits(Next(limit, s, step), node) <= Waits(s, node)
    ensures |Waits(Next(limit, s, step), node)| <= |Waits(s, node)|
  {
    NextHolders(limit, s, step);
    hide ActiveLive, CountsLive, PeersWithin, Decrement, EntriesLive, System.Holders, WaitsIn;
    FewerWaits(Next(limit, s, step).c.waiting, Next(limit, s, step).Holders(), s.c.waiting, s.Holders(), node);
  }

  lemma FewerWaits(w: map<string, nat>, o: map<nat, Reservation>, waiting: map<string, nat>, owners: map<nat, Reservation>, node: string)
    requires forall rid :: rid in w ==> rid in waiting && w[rid] == waiting[rid]
    requires forall e :: e in o ==> e in owners && o[e] == owners[e]
    ensures WaitsIn(w, o, node) <= WaitsIn(waiting, owners, node)
    ensures |WaitsIn(w, o, node)| <= |WaitsIn(waiting, owners, node)|
  {
    var fewer, all := WaitsIn(w, o, node), WaitsIn(waiting, owners, node);
    assert all == fewer + (all - fewer);
  }

  /** Only an admission of the node raises its commitments, and by one. */
  lemma CommitmentsStep(limit: int, states: seq<System>, steps: seq<Step>, k: nat, node: string, ownerOf: string -> string)
    requires IsRun(limit, states, steps) && OwnersFixed(steps, ownerOf) && k < |steps|
    ensures if Admits(limit, states[k], steps[k], node)
            then Commitments(states[k + 1], node) == Commitments(states[k], node) + 1
            else Commitments(states[k + 1], node) <= Commitments(states[k], node)
  {
    AccountingHolds(limit, states, steps, k);
    OwnersAreFixed(limit, states, steps, ownerOf, k);
    LoadStep(limit, states, steps, k, node);
    var s, step := states[k], steps[k];
    assert Enabled(s, step) && states[k + 1] == Next(limit, s, step);
    if step.OwnerArrives? {
      WaitsArrive(limit, s, step, node);
    } else if Pairs(limit, s, step) {
      WaitsPair(limit, s, step, node);
    } else {
      WaitsLeave(limit, s, step, node);
    }
  }

  lemma NothingCommitted(node: string)
    ensures Commitments(IDLE, node) == 0
  {
    assert Waits(IDLE, node) == {};
  }

  lemma {:induction false} CommitmentsStayWithin(limit: int, bound: int, states: seq<System>, steps: seq<Step>, node: string,
                                                 ownerOf: string -> string, n: nat)
    requires IsRun(limit, states, steps) && OwnersFixed(steps, ownerOf) && bound >= 0 && n < |states|
    requires forall k :: 0 <= k < |steps| && Admits(limit, states[k], steps[k], node) ==> Commitments(states[k], node) < bound
    ensures Commitments(states[n], node) <= bound
  {
    if n == 0 {
      NothingCommitted(node);
      hide Commitments, Admits, OwnersFixed;
    } else {
      hide IsRun, Commitments, Admits, OwnersFixed;
      CommitmentsStayWithin(limit, bound, states, steps, node, ownerOf, n - 1);
      CommitmentsStep(limit, states, steps, n - 1, node, ownerOf);
    }
  }

  /** The check that would keep a node within its limit, whatever the others do:
      admit it, as owner or as peer, only while sessions and outstanding waits
      together are below the limit.  It keeps both together within the limit, and
      nothing weaker does. */
  lemma AdmissionControlIff(limit: int, states: seq<System>, steps: seq<Step>, node: string, ownerOf: string -> string)
    requires IsRun(limit, states, steps) && OwnersFixed(steps, ownerOf) && limit >= 0
    ensures (forall k :: 0 <= k < |states| ==> Commitments(states[k], node) <= limit)
            <==> (forall k :: 0 <= k < |steps| && Admits(limit, states[k], steps[k], node) ==> Commitments(states[k], node) < limit)
    ensures (forall k :: 0 <= k < |states| ==> Commitments(states[k], node) <= limit)
            ==> forall k :: 0 <= k < |states| ==> Load(states[k], node) <= limit
  {
    if forall k :: 0 <= k < |states| ==> Commitments(states[k], node) <= limit {
      forall k | 0 <= k < |steps| && Admits(limit, states[k], steps[k], node) ensures Commitments(states[k], node) < limit {
        CommitmentsStep(limit, states, steps, k, node, ownerOf);
        assert Commitments(states[k + 1], node) <= limit;
      }
      forall k | 0 <= k < |states| ensures Load(states[k], node) <= limit {
        assert Commitments(states[k], node) <= limit;
      }
    }
    if forall k :: 0 <= k < |steps| && Admits(limit, states[k], steps[k], node) ==> Commitments(states[k], node) < limit {
      forall k | 0 <= k < |states| ensures Commitments(states[k], node) <= limit {
        CommitmentsStayWithin(limit, limit, states, steps, node, ownerOf, k);
      }
    }
  }

  /** An owner that starts several waits before the first is joined exceeds it. */
  lemma OwnerLimitCanBeExceeded(r1: Reservation, r2: Reservation) returns (states: seq<System>, steps: seq<Step>)
    requires r1.owner == r2.owner && r1.reservationId != r2.reservationId
    requires r1.peer != r1.owner && r2.peer != r2.owner && r1.peer != r2.peer
    ensures IsRun(1, states, steps) && |states| == 5
    ensures Count(states[4].c.byNode, r1.owner) == 2
  {
    steps := [OwnerArrives(r1, 0), OwnerArrives(r2, 1), PeerArrives(r1, 2), PeerArrives(r2, 3)];
    var s1 := Next(1, IDLE, steps[0]);
    var s2 := Next(1, s1, steps[1]);
    var s3 := Next(1, s2, steps[2]);
    var s4 := Next(1, s3, steps[3]);
    states := [IDLE, s1, s2, s3, s4];
  }

  // ----- Pumping frames -----

  datatype Event = Disconnect | Frame(data: Option<Bytes>, hasText: bool) | Control

  datatype Ending = Running | Closed | FrameTooLarge | DirectionLimit | NotBinary

  /** The payloads of the frames among these events, in order. */
  function Payloads(events: seq<Event>): seq<Bytes> {
    if events == [] then []
    else
      var e := events[|events| - 1];
      Payloads(events[..|events| - 1]) + if e.Frame? && e.data.Some? then [e.data.value] else []
  }

  function Total(frames: seq<Bytes>): nat {
    if frames == [] then 0 else Total(frames[..|frames| - 1]) + |frames[|frames| - 1]|
  }

  /** The bytes in the frames among the first `n` events. */
  function Used(events: seq<Event>, n: nat): nat
    requires n <= |events|
  {
    Total(Payloads(events[..n]))
  }

  lemma EventAdds(events: seq<Event>, n: nat)
    requires n < |events|
    ensures Payloads(events[..n + 1])
            == Payloads(events[..n]) + if events[n].Frame? && events[n].data.Some? then [events[n].data.value] else []
    ensures Used(events, n + 1)
            == Used(events, n) + if events[n].Frame? && events[n].data.Some? then |events[n].data.value| else 0
  {
    assert events[..n + 1][..n] == events[..n];
    var frames := Payloads(events[..n]);
    if events[n].Frame? && events[n].data.Some? {
      TotalStep(frames, events[n].data.value);
      assert Payloads(events[..n + 1]) == frames + [events[n].data.value];
    } else {
      assert Payloads(events[..n + 1]) == frames + [] == frames;
    }
  }

  lemma TotalStep(frames: seq<Bytes>, frame: Bytes)
    ensures Total(frames + [frame]) == Total(frames) + |frame|
  {
    assert (frames + [frame])[..|frames|] == frames;
  }

  predicate IsBinary(e: Event) {
    e.Frame? && e.data.Some? && !e.hasText
  }

  /** What the relay may do with an event once it has forwarded `used` bytes. */
  function Fate(used: int, e: Event, maxFrame: int, maxBytes: int): Ending {
    if e.Disconnect? then Closed
    else if e.Control? then Running
    else if !IsBinary(e) then NotBinary
    else if |e.data.value| > maxFrame then FrameTooLarge
    else if used + |e.data.value| > maxBytes then DirectionLimit
    else Running
  }

  predicate AllFit(frames: seq<Bytes>, maxFrame: int) {
    forall i :: 0 <= i < |frames| ==> |frames[i]| <= maxFrame
  }

  lemma AllFitStep(frames: seq<Bytes>, frame: Bytes, maxFrame: int)
    requires AllFit(frames, maxFrame) && |frame| <= maxFrame
    ensures AllFit(frames + [frame], maxFrame)
  {
  }

  /** None of the first `n` events ends the direction. */
  predicate AllRun(events: seq<Event>, n: nat, maxFrame: int, maxBytes: int)
    requires n <= |events|
  {
    forall k :: 0 <= k < n ==> Fate(Used(events, k), events[k], maxFrame, maxBytes).Running?
  }

  lemma AllRunStep(events: seq<Event>, n: nat, maxFrame: int, maxBytes: int)
    requires n < |events| && AllRun(events, n, maxFrame, maxBytes)
    requires Fate(Used(events, n), events[n], maxFrame, maxBytes).Running?
    ensures AllRun(events, n + 1, maxFrame, maxBytes)
  {
  }

  /** A binary frame within the limits, after `used` bytes. */
  ghost predicate FitsIn(e: Event, used: int, maxFrame: int, maxBytes: int) {
    e.Frame? && !e.hasText && e.data.Some? && |e.data.value| <= maxFrame && used + |e.data.value| <= maxBytes
  }

  /** Why the direction ended at this event, after `used` bytes: a frame that is not
      binary comes before one too large, and that before the limit of the direction. */
  ghost predicate EndsFor(ending: Ending, e: Event, used: int, maxFrame: int, maxBytes: int) {
    match ending
    case Running => false
    case Closed => e.Disconnect?
    case NotBinary => e.Frame? && (e.hasText || e.data.None?)
    case FrameTooLarge => e.Frame? && !e.hasText && e.data.Some? && |e.data.value| > maxFrame
    case DirectionLimit =>
      e.Frame? && !e.hasText && e.data.Some? && |e.data.value| <= maxFrame && used + |e.data.value| > maxBytes
  }

  lemma FateSays(e: Event, used: int, maxFrame: int, maxBytes: int)
    ensures Fate(used, e, maxFrame, maxBytes).Running? <==> e.Control? || FitsIn(e, used, maxFrame, maxBytes)
    ensures !Fate(used, e, maxFrame, maxBytes).Running? ==>
              EndsFor(Fate(used, e, maxFrame, maxBytes), e, used, maxFrame, maxBytes)
  {
  }

  /** What ends a direction, and nothing before it did. */
  lemma PumpEndsFor(events: seq<Event>, n: nat, maxFrame: int, maxBytes: int)
    requires n <= |events| && AllRun(events, n, maxFrame, maxBytes)
    ensures forall k :: 0 <= k < n ==> events[k].Control? || FitsIn(events[k], Used(events, k), maxFrame, maxBytes)
    ensures n < |events| ==>
              var ending := Fate(Used(events, n), events[n], maxFrame, maxBytes);
              ending.Running? || EndsFor(ending, events[n], Used(events, n), maxFrame, maxBytes)
  {
    forall k | 0 <= k < n ensures events[k].Control? || FitsIn(events[k], Used(events, k), maxFrame, maxBytes) {
      FateSays(events[k], Used(events, k), maxFrame, maxBytes);
    }
    if n < |events| {
      FateSays(events[n], Used(events, n), maxFrame, maxBytes);
    }
  }

  /** One direction of a session: forwards binary frames unchanged and in order
      up to the first event that ends it, never more than the limits allow. */
  method Pump(events: seq<Event>, maxFrame: int, maxBytes: int) returns (sent: seq<Bytes>, n: nat, ending: Ending)
    requires maxBytes >= 0
    ensures n <= |events| && sent == Payloads(events[..n])
    ensures Used(events, n) <= maxBytes && AllFit(sent, maxFrame)
    ensures AllRun(events, n, maxFrame, maxBytes)
    ensures if ending.Running? then n == |events| else n < |events| && ending == Fate(Used(events, n), events[n], maxFrame, maxBytes)
  {
    sent, n, ending := [], 0, Running;
    var counter := 0;
    assert events[..0] == [] && Payloads([]) == [] && Used(events, 0) == 0;
    assert AllRun(events, 0, maxFrame, maxBytes) && AllFit([], maxFrame);
    hide Payloads, Used, AllRun, AllFit;
    while n < |events|
      invariant n <= |events| && ending == Running
      invariant sent == Payloads(events[..n]) && counter == Used(events, n) <= maxBytes
      invariant AllFit(sent, maxFrame)
      invariant AllRun(events, n, maxFrame, maxBytes)
    {
      var event := events[n];
      EventAdds(events, n);
      if event.Disconnect? {
        return sent, n, Closed;
      }
      if event.Frame? {
        if event.data.None? || event.hasText {
          return sent, n, NotBinary;
        }
        var frame := event.data.value;
        if |frame| > maxFrame {
          return sent, n, FrameTooLarge;
        }
        counter := counter + |frame|;
        if counter > maxBytes {
          return sent, n, DirectionLimit;
        }
        AllFitStep(sent, frame, maxFrame);
        sent := sent + [frame];
      }
      AllRunStep(events, n, maxFrame, maxBytes);
      n := n + 1;
    }
  }
}
