/** What an event carries -- its message, its labels, the policy's evaluation -- and
    what becomes of it: a signal is queued for exactly the events that the policy
    lets surface. */
module DiscordSignals {
  import opened Basics
  import opened Discord
  import opened DiscordPolling

  // ----- One message -----

  ghost predicate HasLabels(b: Bridge, m: Message, tags: set<Tag>) {
    && PlatformDiscord in tags
    && (IsMention in tags <==> b.botId in m.mentions) && (IsReply in tags <==> m.repliesTo == Some(b.botId))
    && (FromBot in tags <==> m.authorIsBot) && (FromWebhook in tags <==> m.webhook)
    && (MassMention in tags <==> m.massMention) && (IsPinned in tags <==> m.pinned)
    && (HasAttachment in tags <==> m.attachments != 0)
  }

  /** The reactions to a message, capped. */
  ghost predicate CountsReactions(counts: seq<int>, total: int) {
    total == Min(SumOf(counts), 1_000_000)
  }

  ghost function SumOf(counts: seq<int>): int {
    if counts == [] then 0 else SumOf(counts[..|counts| - 1]) + counts[|counts| - 1]
  }

  /** The body says what the message does, and keeps its text only when the bot was
      mentioned and the mode asks for it. */
  ghost predicate BodyTells(b: Bridge, m: Message, body: Body) {
    var kept := b.mentionsMode && b.botId in m.mentions;
    && body.messageId == m.id && body.channelId == m.channelId && body.actorKey == b.actorKey(m.authorId)
    && body.revision == (if m.edited.None? || m.edited.value == "" then "create" else m.edited.value)
    && body.withContent == kept && body.content == (if kept then m.content else "")
    && HasLabels(b, m, body.tags) && CountsReactions(m.reactions, body.reactions)
  }

  /** The author's row once the message is counted in: a first row, or the old one
      with every counter raised and capped. */
  ghost predicate CountsIn(b: Bridge, m: Message, before: map<string, ActorRow>, row: ActorRow) {
    var created, actor := m.id / 4194304 + 1420070400000, b.actorKey(m.authorId);
    var prior := if actor in before then before[actor] else ActorRow(created, created, m.authorId / 4194304 + 1420070400000, 0, 0, 0, 0);
    && row.firstSeen == prior.firstSeen && row.accountCreated == prior.accountCreated && row.lastSeen == Max(prior.lastSeen, created)
    && row.mentions == Min(10000, prior.mentions + if b.botId in m.mentions then 1 else 0)
    && row.replies == Min(10000, prior.replies + if m.repliesTo == Some(b.botId) then 1 else 0)
    && row.pinned == Min(10000, prior.pinned + if m.pinned then 1 else 0)
    && row.reactions == Min(1_000_000, prior.reactions + Min(SumOf(m.reactions), 1_000_000))
  }

  /** The event of a message of somebody else, evaluated by the policy over its
      author's row `row` and its own labels. */
  ghost predicate IsEventOf(b: Bridge, m: Message, row: ActorRow, event: EventRow) {
    && BodyTells(b, m, event.body) && event.createdMs == m.id / 4194304 + 1420070400000
    && event.evaluation == b.evaluate(b.actorKey(m.authorId), row, event.body.tags)
  }

  /** The checks on a message, spelled out. */
  ghost predicate IsReadable(b: Bridge, m: Message) {
    && (m.edited.Some? ==> |m.edited.value| <= 64)
    && |m.mentions| <= 100 && m.attachments <= 100 && |m.reactions| <= 100
    && (b.mentionsMode && b.botId in m.mentions ==> |m.content| <= 2000)
    && forall i :: 0 <= i < |m.reactions| ==> 0 <= m.reactions[i] <= 1_000_000
  }

  ghost predicate IsAddressed(m: Message, channel: nat) {
    0 < m.id < 0x1_0000_0000_0000_0000 && 0 < m.authorId < 0x1_0000_0000_0000_0000 && m.channelId == channel
  }

  lemma {:induction false} SumsAgree(counts: seq<int>)
    ensures TotalReactions(counts) == SumOf(counts)
  {
    if |counts| <= 1 {
    } else {
      var init, last := counts[..|counts| - 1], counts[|counts| - 1];
      SumsAgree(init);
      SumsAgree(counts[1..]);
      assert counts[1..] == init[1..] + [last];
      assert counts[1..][..|counts[1..]| - 1] == init[1..];
      SumsAgree(init[1..]);
    }
  }

  lemma BodyIsTold(b: Bridge, m: Message)
    ensures BodyTells(b, m, BodyOf(b, m))
  {
    SumsAgree(m.reactions);
    assert HasLabels(b, m, TagsOf(b, m));
    hide TagsOf, TotalReactions, SumOf, HasLabels;
  }

  lemma UpsertCountsIn(b: Bridge, m: Message, actors: map<string, ActorRow>)
    requires IsReadable(b, m)
    ensures CountsIn(b, m, actors, Upsert(actors, BodyOf(b, m), CreatedMs(m.id), CreatedMs(m.authorId)))
  {
    BodyIsTold(b, m);
    SumsAgree(m.reactions);
    ReactionsNonNegative(m.reactions);
    hide BodyOf, SumOf, TotalReactions;
  }

  /** Exactly which messages are taken in, and what a new one leaves behind. */
  lemma IngestIff(b: Bridge, l: Ledger, m: Message, channel: nat)
    ensures var r, key := Ingest(b, l, m, channel), KeyOf(b, m);
      && (r.Ok? <==> IsAddressed(m, channel)
                     && (m.authorId == b.botId
                         || (IsReadable(b, m) && (key in l.events ==> b.bodyHash(l.events[key].body) == b.bodyHash(BodyOf(b, m))))))
      && (r.Ok? ==>
            var (l', event) := r.value;
            && l'.cursors == l.cursors
            && (event.None? <==> m.authorId == b.botId)
            && (m.authorId == b.botId || key in l.events ==> l' == l)
            && (m.authorId != b.botId && key in l.events ==> event == Some(l.events[key]))
            && (m.authorId != b.botId && key !in l.events ==>
                  var actor := b.actorKey(m.authorId);
                  && event.Some? && event.value.routed == "" && l'.events == l.events[key := event.value]
                  && actor in l'.actors && l'.actors == l.actors[actor := l'.actors[actor]]
                  && CountsIn(b, m, l.actors, l'.actors[actor]) && IsEventOf(b, m, l'.actors[actor], event.value)))
  {
    BodyIsTold(b, m);
    if IsReadable(b, m) {
      UpsertCountsIn(b, m, l.actors);
    }
    AcceptableIff(b, m);
    hide Acceptable, IsReadable, BodyOf, Upsert, CountsIn, KeyOf;
  }

  lemma AcceptableIff(b: Bridge, m: Message)
    ensures Acceptable(b, m) <==> IsReadable(b, m)
  {
  }

  // ----- What becomes of an event -----

  /** The event as it was, apart from its routing: left alone, or set once, for an
      event that may surface, to the packet id that the callback returned. */
  ghost predicate RoutedOnce(queue: Option<string -> Option<string>>, key: string, before: EventRow, after: EventRow) {
    && after.(routed := before.routed) == before
    && (after.routed == before.routed
        || (before.routed == "" && before.evaluation.surface && IsQueued(queue, key, after.routed)))
  }

  /** The callback, if there is one and a destination to send to. */
  function Outlet(b: Bridge): Option<string -> Option<string>> {
    if b.destination == "" then None else b.queue
  }

  /** The callback returned this packet id for the event, up to case and blanks. */
  ghost predicate IsQueued(queue: Option<string -> Option<string>>, key: string, routed: string) {
    queue.Some? && queue.value(key).Some? && routed == Lower(Strip(queue.value(key).value)) && IsHexId(routed)
  }

  /** What handling one message does to any event: a new one is that message's,
      evaluated over its author's row as it is then; an old one is at most routed. */
  lemma HandleOnEvent(b: Bridge, l: Ledger, channel: nat, m: Message, key: string)
    ensures var l' := Handle(b, l, channel, m).0;
      && (key in l.events ==> key in l'.events && RoutedOnce(Outlet(b), key, l.events[key], l'.events[key]))
      && (key !in l.events && key in l'.events ==>
            var actor := b.actorKey(m.authorId);
            && key == KeyOf(b, m) && m.authorId != b.botId
            && actor in l'.actors && CountsIn(b, m, l.actors, l'.actors[actor])
            && IsEventOf(b, m, l'.actors[actor], l'.events[key])
            && RoutedOnce(Outlet(b), key, l'.events[key].(routed := ""), l'.events[key]))
  {
    IngestIff(b, l, m, channel);
    hide Ingest, KeyOf, IsReadable, BodyOf, CountsIn, IsEventOf, Lower, Strip, IsHexId, IsAddressed;
    EventIgnoresRouting(b, m);
  }

  lemma EventIgnoresRouting(b: Bridge, m: Message)
    ensures forall row, e, r :: IsEventOf(b, m, row, e) <==> IsEventOf(b, m, row, e.(routed := r))
  {
    hide BodyTells;
  }

  /** Exactly when an event is marked as routed, and under what id: once, and again
      under the same id only. */
  lemma RouteIff(l: Ledger, key: string, packetId: string)
    ensures var r, id := MarkRouted(l, key, packetId), Lower(Strip(packetId));
      && (r.Ok? <==> IsHexId(id) && key in l.events && (l.events[key].routed == "" || l.events[key].routed == id))
      && (r.Ok? ==> r.value == l.(events := l.events[key := l.events[key].(routed := id)]))
  {
    hide Lower, Strip, IsHexId;
  }

  // ----- Over a page -----

  lemma {:induction false} WalkSnoc(b: Bridge, l: Ledger, channel: nat, messages: seq<Message>, m: Message)
    ensures var (mid, n) := Walk(b, l, channel, messages);
      Walk(b, l, channel, messages + [m])
      == if n < |messages| then (mid, n)
         else (Handle(b, mid, channel, m).0, if Handle(b, mid, channel, m).1 then n + 1 else n)
    decreases |messages|
  {
    hide Handle;
    if messages == [] {
      assert [m][1..] == [];
      assert messages + [m] == [m];
      assert Walk(b, Handle(b, l, channel, m).0, channel, []) == (Handle(b, l, channel, m).0, 0);
    } else {
      assert (messages + [m])[0] == messages[0] && (messages + [m])[1..] == messages[1..] + [m];
      var (next, goesOn) := Handle(b, l, channel, messages[0]);
      if goesOn {
        WalkSnoc(b, next, channel, messages[1..], m);
      }
    }
  }

  lemma RoutedOnceMore(queue: Option<string -> Option<string>>, key: string, x: EventRow, y: EventRow, z: EventRow)
    requires RoutedOnce(queue, key, x, y) && RoutedOnce(queue, key, y, z)
    ensures RoutedOnce(queue, key, x, z)
  {
    assert IsHexId(y.routed) ==> y.routed != "";
    hide Lower, Strip, IsHexId;
  }

  /** The event in a ledger after the first `i` messages of a page: kept from before,
      or made of one of them. */
  lemma {:induction false} WalkOnEvent(b: Bridge, l: Ledger, channel: nat, messages: seq<Message>, key: string) returns (i: nat)
    ensures var l' := Walk(b, l, channel, messages).0;
      && (key in l.events ==> key in l'.events && RoutedOnce(Outlet(b), key, l.events[key], l'.events[key]))
      && (key !in l.events && key in l'.events ==> i < |messages| && MadeAt(b, l, channel, messages, i, key, l'.events[key]))
    decreases |messages|
  {
    if messages == [] {
      i := 0;
    } else {
      var init, m := messages[..|messages| - 1], messages[|messages| - 1];
      assert messages == init + [m];
      WalkSnoc(b, l, channel, init, m);
      i := WalkOnEvent(b, l, channel, init, key);
      var (mid, n) := Walk(b, l, channel, init);
      HandleOnEvent(b, mid, channel, m, key);
      hide Walk, Handle, KeyOf, CountsIn, IsEventOf, RoutedOnce, MadeAt;
      if key in l.events && n == |init| {
        RoutedOnceMore(Outlet(b), key, l.events[key], mid.events[key], Handle(b, mid, channel, m).0.events[key]);
      } else if key !in l.events && key in mid.events {
        MadeEarlier(b, l, channel, init, m, i, key, mid.events[key]);
        if n == |init| {
          MadeThenRouted(b, l, channel, messages, i, key, mid.events[key], Handle(b, mid, channel, m).0.events[key]);
        }
      } else if key !in l.events && key in Walk(b, l, channel, messages).0.events {
        i := |init|;
        MadeLast(b, l, channel, init, m, key);
      }
    }
  }

  /** The event is that of message `i` of the page, which was not known before,
      evaluated as things stood when it was handled, and routed since at most. */
  ghost predicate MadeAt(b: Bridge, l: Ledger, channel: nat, messages: seq<Message>, i: nat, key: string, event: EventRow)
    requires i < |messages|
  {
    var before, after := Walk(b, l, channel, messages[..i]).0, Walk(b, l, channel, messages[..i + 1]).0;
    var m := messages[i];
    && key !in before.events && key == KeyOf(b, m) && m.authorId != b.botId
    && b.actorKey(m.authorId) in after.actors
    && CountsIn(b, m, before.actors, after.actors[b.actorKey(m.authorId)])
    && IsEventOf(b, m, after.actors[b.actorKey(m.authorId)], event)
    && RoutedOnce(Outlet(b), key, event.(routed := ""), event)
  }

  lemma MadeLast(b: Bridge, l: Ledger, channel: nat, init: seq<Message>, m: Message, key: string)
    requires var (mid, n) := Walk(b, l, channel, init);
      && n == |init| && key !in mid.events && key in Handle(b, mid, channel, m).0.events
      && Walk(b, l, channel, init + [m]).0 == Handle(b, mid, channel, m).0
    ensures MadeAt(b, l, channel, init + [m], |init|, key, Walk(b, l, channel, init + [m]).0.events[key])
  {
    HandleOnEvent(b, Walk(b, l, channel, init).0, channel, m, key);
    assert (init + [m])[..|init|] == init && (init + [m])[..|init| + 1] == init + [m];
    hide Walk, Handle, KeyOf, CountsIn, IsEventOf, RoutedOnce;
  }

  lemma MadeEarlier(b: Bridge, l: Ledger, channel: nat, init: seq<Message>, m: Message, i: nat, key: string, event: EventRow)
    requires i < |init| && MadeAt(b, l, channel, init, i, key, event)
    ensures MadeAt(b, l, channel, init + [m], i, key, event)
  {
    assert (init + [m])[..i] == init[..i] && (init + [m])[..i + 1] == init[..i + 1];
    hide Walk, KeyOf, CountsIn, IsEventOf, RoutedOnce;
  }

  lemma MadeThenRouted(b: Bridge, l: Ledger, channel: nat, messages: seq<Message>, i: nat, key: string, x: EventRow, y: EventRow)
    requires i < |messages| && MadeAt(b, l, channel, messages, i, key, x) && RoutedOnce(Outlet(b), key, x, y)
    ensures MadeAt(b, l, channel, messages, i, key, y)
  {
    EventIgnoresRouting(b, messages[i]);
    hide Walk, KeyOf, CountsIn, IsEventOf, Lower, Strip;
    RoutedOnceMore(Outlet(b), key, x.(routed := ""), x, y);
    assert y.(routed := "") == x.(routed := "");
    var row := Walk(b, l, channel, messages[..i + 1]).0.actors[b.actorKey(messages[i].authorId)];
    assert y == x.(routed := y.routed);
    assert IsEventOf(b, messages[i], row, x.(routed := y.routed));
  }

  // ----- Over a run of polls -----

  /** The event was made of message `i`, in id order, of poll `k`. */
  ghost predicate MadeIn(b: Bridge, polls: seq<Poll>, k: nat, i: nat, key: string, event: EventRow)
    requires k < |polls|
  {
    var p, l := polls[k], After(b, polls, k);
    var ordered, at := SortById(p.page), At(b, p);
    && i < |ordered|
    && var m, before, after := ordered[i], Walk(at, l, p.channel, ordered[..i]).0, Walk(at, l, p.channel, ordered[..i + 1]).0;
       && key !in before.events && key == KeyOf(b, m) && m.authorId != b.botId
       && b.actorKey(m.authorId) in after.actors
       && CountsIn(b, m, before.actors, after.actors[b.actorKey(m.authorId)])
       && IsEventOf(b, m, after.actors[b.actorKey(m.authorId)], event)
  }

  /** Some poll so far had its callback return this packet id for the event. */
  ghost predicate WasQueued(polls: seq<Poll>, n: nat, key: string, routed: string)
    requires n <= |polls|
  {
    exists k :: 0 <= k < n && IsQueued(Some(polls[k].queue), key, routed)
  }

  /** The event may surface and was queued, for there is somewhere to send it, or it
      was not routed at all. */
  ghost predicate RoutingTells(b: Bridge, polls: seq<Poll>, n: nat, key: string, event: EventRow)
    requires n <= |polls|
  {
    event.routed == "" || (event.evaluation.surface && b.destination != "" && WasQueued(polls, n, key, event.routed))
  }

  /** In every state that polling reaches, every event was made of one message, with
      the policy's evaluation of its author's row at that moment and of its labels,
      and it was routed, if ever, because that evaluation lets it surface, under the
      packet id that the callback returned for it. */
  lemma {:induction false} EventHasOrigin(b: Bridge, polls: seq<Poll>, n: nat, key: string) returns (k: nat, i: nat)
    requires n <= |polls| && key in After(b, polls, n).events
    ensures k < n && MadeIn(b, polls, k, i, key, After(b, polls, n).events[key])
    ensures RoutingTells(b, polls, n, key, After(b, polls, n).events[key])
    decreases n
  {
    if n == 0 {
      assert false;
    } else {
      var p, l := polls[n - 1], After(b, polls, n - 1);
      var l' := After(b, polls, n);
      var q := PageOnEvent(At(b, p), l, p.channel, p.page, key);
      hide After, MadeIn, PollPage;
      if key in l.events {
        k, i := EventHasOrigin(b, polls, n - 1, key);
        MadeAndRouted(b, polls, k, i, key, l.events[key], l'.events[key], Outlet(At(b, p)));
        StillTells(b, polls, n, key, l.events[key], l'.events[key]);
      } else {
        k, i := n - 1, q;
        MadeByPoll(b, polls, n, i, key);
      }
    }
  }

  lemma PageOnEvent(b: Bridge, l: Ledger, channel: nat, page: seq<Message>, key: string) returns (i: nat)
    ensures var l' := PollPage(b, l, channel, page).0;
      && (key in l.events ==> key in l'.events && RoutedOnce(Outlet(b), key, l.events[key], l'.events[key]))
      && (key !in l.events && key in l'.events ==>
            i < |SortById(page)| && MadeAt(b, l, channel, SortById(page), i, key, l'.events[key]))
  {
    i := WalkOnEvent(b, l, channel, SortById(page), key);
    hide Walk, SortById, MadeAt, Lower, Strip, IsHexId;
  }

  lemma MadeAndRouted(b: Bridge, polls: seq<Poll>, k: nat, i: nat, key: string, x: EventRow, y: EventRow,
                      queue: Option<string -> Option<string>>)
    requires k < |polls| && MadeIn(b, polls, k, i, key, x) && RoutedOnce(queue, key, x, y)
    ensures MadeIn(b, polls, k, i, key, y)
  {
    EventIgnoresRouting(b, SortById(polls[k].page)[i]);
    hide Walk, SortById, After, KeyOf, CountsIn, IsEventOf, IsQueued;
    assert y == x.(routed := y.routed);
  }

  lemma QueuedHasOutlet(queue: Option<string -> Option<string>>, key: string, routed: string)
    ensures IsQueued(queue, key, routed) ==> queue.Some?
  {
    hide Lower, Strip, IsHexId;
  }

  lemma StillTells(b: Bridge, polls: seq<Poll>, n: nat, key: string, x: EventRow, y: EventRow)
    requires 0 < n <= |polls| && RoutingTells(b, polls, n - 1, key, x)
    requires RoutedOnce(Outlet(At(b, polls[n - 1])), key, x, y)
    ensures RoutingTells(b, polls, n, key, y)
  {
    QueuedHasOutlet(Outlet(At(b, polls[n - 1])), key, y.routed);
    hide IsQueued;
    assert y.evaluation == x.evaluation;
    if y.routed != "" && y.routed == x.routed {
      var k :| 0 <= k < n - 1 && IsQueued(Some(polls[k].queue), key, x.routed);
      assert 0 <= k < n && IsQueued(Some(polls[k].queue), key, y.routed);
    }
  }

  lemma MadeByPoll(b: Bridge, polls: seq<Poll>, n: nat, i: nat, key: string)
    requires 0 < n <= |polls| && key in After(b, polls, n).events
    requires var p, l := polls[n - 1], After(b, polls, n - 1);
      i < |SortById(p.page)| && MadeAt(At(b, p), l, p.channel, SortById(p.page), i, key, After(b, polls, n).events[key])
    ensures MadeIn(b, polls, n - 1, i, key, After(b, polls, n).events[key])
    ensures RoutingTells(b, polls, n, key, After(b, polls, n).events[key])
  {
    QueuedHasOutlet(Outlet(At(b, polls[n - 1])), key, After(b, polls, n).events[key].routed);
    var p, l := polls[n - 1], After(b, polls, n - 1);
    var ordered, m := SortById(p.page), SortById(p.page)[i];
    var before, after := Walk(At(b, p), l, p.channel, ordered[..i]).0, Walk(At(b, p), l, p.channel, ordered[..i + 1]).0;
    hide Walk, SortById, After, IsQueued;
    SameUnderQueue(b, p, m, before.actors, after.actors[b.actorKey(m.authorId)], After(b, polls, n).events[key]);
    hide CountsIn, IsEventOf, KeyOf;
  }

  lemma SameUnderQueue(b: Bridge, p: Poll, m: Message, actors: map<string, ActorRow>, row: ActorRow, event: EventRow)
    ensures KeyOf(At(b, p), m) == KeyOf(b, m)
    ensures CountsIn(At(b, p), m, actors, row) <==> CountsIn(b, m, actors, row)
    ensures IsEventOf(At(b, p), m, row, event) <==> IsEventOf(b, m, row, event)
  {
  }

  /** What a cursor has passed: a returned message of somebody else at or below its
      channel's cursor has its event, and when the policy's evaluation let that
      surface -- and only then -- it was routed under a packet id that the callback
      returned for it. */
  lemma PassedIsSignalled(b: Bridge, polls: seq<Poll>, n: nat, channel: nat, m: Message) returns (k: nat, i: nat)
    requires b.destination != "" && PagesInOrder(b, polls) && n <= |polls|
    requires m in Returned(polls, channel, n) && m.id <= Cursor(After(b, polls, n), channel) && m.authorId != b.botId
    ensures var events, key := After(b, polls, n).events, KeyOf(b, m);
      && key in events && k < n && MadeIn(b, polls, k, i, key, events[key])
      && (events[key].evaluation.surface ==> WasQueued(polls, n, key, events[key].routed))
      && (!events[key].evaluation.surface ==> events[key].routed == "")
  {
    CursorIsSafe(b, polls, n, channel);
    assert Settled(b, After(b, polls, n), m);
    hide After, PagesInOrder, Returned, Cursor, KeyOf, MadeIn;
    k, i := EventHasOrigin(b, polls, n, KeyOf(b, m));
  }
}
