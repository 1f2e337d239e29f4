/** Private conversations of one account: bounded, without duplicates, with an unread counter and
    a delivery status on every outbound message. */
module DmStore {
  import opened Wrappers
  import opened Sequences
  import opened Text

  const MAX_MESSAGES := 300

  datatype Status = Failed | Sending | Sent | Delivered | Read | Unranked(text: string) {
    function Rank(): nat {
      match this
      case Failed => 0
      case Sending => 1
      case Sent => 2
      case Delivered => 3
      case Read => 4
      case Unranked(_) => 0
    }

    /** A stored status that is blank reads as sent. */
    function OrSent(): Status {
      if this == Unranked("") then Sent else this
    }
  }

  datatype Message = Message(id: int, outgoing: bool, text: string, status: Status, media: bool, mediaType: string)

  datatype Conversation = Conversation(unread: nat, messages: seq<Message>)

  const EMPTY := Conversation(0, [])

  /** By conversation key, the user id as text. */
  type Inbox = map<string, Conversation>

  function ConversationOf(inbox: Inbox, user: string): Conversation {
    if user in inbox then inbox[user] else EMPTY
  }

  predicate CanAdvance(current: Status, target: Status) {
    if target.Failed? then current.Sending? || current.Sent? else target.Rank() > current.Rank()
  }

  function Trim(messages: seq<Message>): seq<Message> {
    if |messages| <= MAX_MESSAGES then messages else messages[|messages| - MAX_MESSAGES..]
  }

  /** The position of the first message with the id, or the length of the list. */
  function Find(messages: seq<Message>, id: int): (i: nat)
    ensures i <= |messages|
    ensures i < |messages| ==> messages[i].id == id
    ensures forall j :: 0 <= j < i ==> messages[j].id != id
  {
    if messages == [] || messages[0].id == id then 0 else 1 + Find(messages[1..], id)
  }

  predicate Stored(messages: seq<Message>, id: int) {
    Find(messages, id) < |messages|
  }

  /** A repeated append may fill in media details and a missing text. */
  function FilledIn(m: Message, d: Message): Message {
    if (d.media || d.mediaType != "") && m.mediaType == "" then
      m.(media := true,
         mediaType := if d.mediaType != "" then d.mediaType else m.mediaType,
         text := if Strip(m.text) == "" && Strip(d.text) != "" then d.text else m.text)
    else m
  }

  /** An incoming or outgoing message as delivered. `telegramId` is 0 when there is none; the id is
      then made from the clock, and the message is never taken for a repeat. */
  datatype Draft = Draft(telegramId: int, message: Message, countUnread: bool) {
    function Record(now: int): Message {
      message.(id := if telegramId != 0 then telegramId else now)
    }
  }

  predicate IsRepeat(c: Conversation, d: Draft) {
    d.telegramId != 0 && Stored(c.messages, d.telegramId)
  }

  function Appended(c: Conversation, d: Draft, now: int): Conversation {
    if IsRepeat(c, d) then
      var i := Find(c.messages, d.telegramId);
      c.(messages := c.messages[i := FilledIn(c.messages[i], d.message)])
    else
      Conversation(
        if d.message.outgoing then 0 else if d.countUnread then c.unread + 1 else c.unread,
        Trim(c.messages + [d.Record(now)]))
  }

  /** A repeat that changes nothing is not written back, so it creates no conversation. */
  function AfterAppend(inbox: Inbox, user: string, d: Draft, now: int): Inbox {
    inbox[user := Appended(ConversationOf(inbox, user), d, now)]
  }

  function WithStatus(m: Message, status: Status): Message {
    m.(status := status)
  }

  function StatusUpdated(c: Conversation, id: int, status: Status): Conversation {
    var i := Find(c.messages, id);
    if i < |c.messages| && c.messages[i].outgoing && CanAdvance(c.messages[i].status.OrSent(), status) then
      c.(messages := c.messages[i := WithStatus(c.messages[i], status)])
    else c
  }

  function MarkedReadUpTo(m: Message, maxId: int): Message {
    if m.outgoing && 0 < m.id <= maxId then WithStatus(m, Read) else m
  }

  function MarkedRead(m: Message): Message {
    if m.outgoing then WithStatus(m, Read) else m
  }

  function Migrated(m: Message): Message {
    if m.outgoing && m.status.Sent? then WithStatus(m, Delivered) else m
  }

  function Normalized(m: Message): Message {
    if m.outgoing && m.status.OrSent().Sent? then WithStatus(m, Delivered) else m
  }

  /** Applies a change to every message of a conversation. */
  function Each(messages: seq<Message>, f: Message -> Message): (r: seq<Message>)
    ensures |r| == |messages|
    ensures forall i :: 0 <= i < |messages| ==> r[i] == f(messages[i])
  {
    if messages == [] then [] else Each(messages[..|messages| - 1], f) + [f(messages[|messages| - 1])]
  }

  /** The records a bulk change alters, as they are returned. */
  function Updates(messages: seq<Message>, f: Message -> Message): seq<Message> {
    if messages == [] then []
    else
      var rest, m := Updates(messages[..|messages| - 1], f), messages[|messages| - 1];
      if f(m) != m then rest + [Normalized(f(m))] else rest
  }

  function UpToId(maxId: int): Message -> Message {
    (m: Message) => MarkedReadUpTo(m, maxId)
  }

  /** If the contact wrote last, everything sent before counts as read. */
  function InferredRead(messages: seq<Message>): seq<Message> {
    if messages == [] || messages[|messages| - 1].outgoing then messages else Each(messages, MarkedRead)
  }

  function Fetched(c: Conversation, persist: bool): Conversation {
    var messages := Each(c.messages, Migrated);
    c.(messages := if persist then InferredRead(messages) else messages)
  }

  function Shown(c: Conversation): seq<Message> {
    Each(InferredRead(Each(c.messages, Migrated)), Normalized)
  }

  /** The repair of the sidebar: unread messages cannot be left when we wrote last. */
  predicate NeedsRepair(c: Conversation) {
    c.unread > 0 && c.messages != [] && c.messages[|c.messages| - 1].outgoing
  }

  function Repaired(c: Conversation): Conversation {
    if NeedsRepair(c) then c.(unread := 0) else c
  }

  function RepairedInbox(inbox: Inbox): Inbox {
    map u | u in inbox :: Repaired(inbox[u])
  }

  function Change(inbox: Inbox, user: string, c: Conversation): Inbox {
    if user in inbox then inbox[user := c] else inbox
  }

  function OverMessages(inbox: Inbox, user: string, f: Message -> Message): Inbox {
    var c := ConversationOf(inbox, user);
    Change(inbox, user, c.(messages := Each(c.messages, f)))
  }

  class DmInbox {
    var conversations: Inbox

    constructor ()
      ensures conversations == map[]
    {
      conversations := map[];
    }

    method AppendMessage(user: string, d: Draft, now: int) returns (created: bool)
      modifies this
      ensures conversations == AfterAppend(old(conversations), user, d, now)
      ensures created <==> !IsRepeat(ConversationOf(old(conversations), user), d)
    {
      var conv := ConversationOf(conversations, user);
      var messages := conv.messages;
      if d.telegramId != 0 {
        var i := FindMessage(messages, d.telegramId);
        if i < |messages| {
          var existing := messages[i];
          if (d.message.media || d.message.mediaType != "") && existing.mediaType == "" {
            if Strip(existing.text) == "" && Strip(d.message.text) != "" {
              existing := existing.(text := d.message.text);
            }
            existing := existing.(media := true);
            if d.message.mediaType != "" {
              existing := existing.(mediaType := d.message.mediaType);
            }
          }
          assert existing == FilledIn(messages[i], d.message);
          conversations := conversations[user := conv.(messages := messages[i := existing])];
          return false;
        }
      }
      conv := conv.(messages := Trim(messages + [d.Record(now)]));
      if !d.message.outgoing && d.countUnread {
        conv := conv.(unread := conv.unread + 1);
      } else if d.message.outgoing {
        conv := conv.(unread := 0);
      }
      conversations := conversations[user := conv];
      created := true;
    }

    method UpdateOutboundStatus(user: string, id: int, status: Status) returns (shown: Option<Message>)
      modifies this
      ensures conversations ==
          Change(old(conversations), user, StatusUpdated(ConversationOf(old(conversations), user), id, status))
      ensures var messages := ConversationOf(old(conversations), user).messages;
              shown.Some? <==> Stored(messages, id) && messages[Find(messages, id)].outgoing
      ensures shown.Some? ==>
                shown.value == Normalized(conversations[user].messages[Find(old(conversations)[user].messages, id)])
    {
      if user !in conversations {
        return None;
      }
      var conv := conversations[user];
      var i := FindMessage(conv.messages, id);
      if i == |conv.messages| || !conv.messages[i].outgoing {
        return None;
      }
      var m := conv.messages[i];
      if CanAdvance(m.status.OrSent(), status) {
        m := m.(status := status);
        conversations := conversations[user := conv.(messages := conv.messages[i := m])];
      }
      shown := Some(Normalized(m));
    }

    method MarkConversationRead(user: string)
      modifies this
      ensures conversations == Change(old(conversations), user, ConversationOf(old(conversations), user).(unread := 0))
    {
      if user in conversations {
        conversations := conversations[user := conversations[user].(unread := 0)];
      }
    }

    method MarkOutgoingReadUpTo(user: string, maxId: int) returns (updated: seq<Message>)
      modifies this
      ensures conversations == OverMessages(old(conversations), user, UpToId(maxId))
      ensures updated == Updates(ConversationOf(old(conversations), user).messages, UpToId(maxId))
    {
      updated := [];
      if user in conversations {
        var c := conversations[user];
        var messages: seq<Message> := [];
        for i := 0 to |c.messages|
          invariant messages == Each(c.messages[..i], UpToId(maxId))
          invariant updated == Updates(c.messages[..i], UpToId(maxId))
        {
          assert c.messages[..i + 1][..i] == c.messages[..i];
          var m := c.messages[i];
          if m.outgoing && 0 < m.id <= maxId && !m.status.Read? {
            m := m.(status := Read);
            updated := updated + [Normalized(m)];
          }
          messages := messages + [m];
        }
        assert c.messages[..|c.messages|] == c.messages;
        conversations := conversations[user := c.(messages := messages)];
      }
    }

    method MarkAllOutgoingRead(user: string) returns (updated: seq<Message>)
      modifies this
      ensures conversations == OverMessages(old(conversations), user, MarkedRead)
      ensures updated == Updates(ConversationOf(old(conversations), user).messages, MarkedRead)
    {
      updated := [];
      if user in conversations {
        var c := conversations[user];
        var messages, changed := ReadAll(c.messages);
        conversations := conversations[user := c.(messages := messages)];
        updated := changed;
      }
    }

    method MigrateLegacySentToDelivered(user: string) returns (updated: seq<Message>)
      modifies this
      ensures conversations == OverMessages(old(conversations), user, Migrated)
      ensures updated == Updates(ConversationOf(old(conversations), user).messages, Migrated)
    {
      updated := [];
      if user in conversations {
        var c := conversations[user];
        var messages: seq<Message> := [];
        for i := 0 to |c.messages|
          invariant messages == Each(c.messages[..i], Migrated)
          invariant updated == Updates(c.messages[..i], Migrated)
        {
          assert c.messages[..i + 1][..i] == c.messages[..i];
          var m := c.messages[i];
          if m.outgoing && m.status.Sent? {
            m := m.(status := Delivered);
            updated := updated + [Normalized(m)];
          }
          messages := messages + [m];
        }
        assert c.messages[..|c.messages|] == c.messages;
        conversations := conversations[user := c.(messages := messages)];
      }
    }

    method GetMessages(user: string, persistReadHints: bool) returns (shown: seq<Message>)
      modifies this
      ensures conversations ==
          Change(old(conversations), user, Fetched(ConversationOf(old(conversations), user), persistReadHints))
      ensures shown == Shown(ConversationOf(old(conversations), user))
    {
      if user !in conversations {
        return [];
      }
      ghost var before := conversations;
      var migrated := MigrateLegacySentToDelivered(user);
      var conv := conversations[user];
      var messages, inferred := InferOutgoingRead(conv.messages);
      FetchAfterMigrate(before, user, persistReadHints, messages);
      if persistReadHints && inferred != [] {
        conversations := conversations[user := conv.(messages := messages)];
      }
      shown := NormalizeAll(messages);
    }

    /** Returns the unread counts shown; repairs a conversation that needs it. */
    method ListConversations() returns (unread: map<string, nat>)
      modifies this
      ensures conversations == RepairedInbox(old(conversations))
      ensures unread.Keys == conversations.Keys
      ensures forall u :: u in unread ==> unread[u] == conversations[u].unread
    {
      var updated := conversations;
      var pending: set<string> := updated.Keys;
      unread := map[];
      while pending != {}
        invariant pending <= updated.Keys && updated.Keys == conversations.Keys
        invariant forall u :: u in conversations ==>
                    updated[u] == if u in pending then conversations[u] else Repaired(conversations[u])
        invariant unread.Keys == updated.Keys - pending
        invariant forall u :: u in unread ==> unread[u] == updated[u].unread
        decreases |pending|
      {
        var u :| u in pending;
        pending := pending - {u};
        var c := updated[u];
        assert c == conversations[u];
        if c.unread > 0 && c.messages != [] && c.messages[|c.messages| - 1].outgoing {
          updated := updated[u := c.(unread := 0)];
        }
        assert updated[u] == Repaired(c);
        unread := unread[u := updated[u].unread];
      }
      conversations := updated;
    }
  }

  /** Migrating and then storing what was inferred amounts to one change of the conversation. */
  lemma FetchAfterMigrate(before: Inbox, user: string, persist: bool, messages: seq<Message>)
    requires user in before
    requires messages == InferredRead(Each(before[user].messages, Migrated))
    ensures var migrated := OverMessages(before, user, Migrated);
            var fetched := Change(before, user, Fetched(before[user], persist));
            && user in migrated && migrated[user].messages == Each(before[user].messages, Migrated)
            && (persist ==> migrated[user := migrated[user].(messages := messages)] == fetched)
            && (!persist || messages == migrated[user].messages ==> migrated == fetched)
            && Each(messages, Normalized) == Shown(before[user])
  {
  }

  method FindMessage(messages: seq<Message>, id: int) returns (i: nat)
    ensures i == Find(messages, id)
  {
    i := 0;
    while i < |messages|
      invariant i <= |messages| && Find(messages, id) == i + Find(messages[i..], id)
    {
      if messages[i].id == id {
        return;
      }
      assert messages[i..][1..] == messages[i + 1..];
      i := i + 1;
    }
  }

  method ReadAll(messages: seq<Message>) returns (r: seq<Message>, updated: seq<Message>)
    ensures r == Each(messages, MarkedRead)
    ensures updated == Updates(messages, MarkedRead)
  {
    r, updated := [], [];
    for i := 0 to |messages|
      invariant r == Each(messages[..i], MarkedRead)
      invariant updated == Updates(messages[..i], MarkedRead)
    {
      assert messages[..i + 1][..i] == messages[..i];
      var m := messages[i];
      if m.outgoing && !m.status.Read? {
        m := m.(status := Read);
        updated := updated + [Normalized(m)];
      }
      r := r + [m];
    }
    assert messages[..|messages|] == messages;
  }

  method InferOutgoingRead(messages: seq<Message>) returns (r: seq<Message>, updated: seq<Message>)
    ensures r == InferredRead(messages)
    ensures updated == if messages == [] || messages[|messages| - 1].outgoing then [] else Updates(messages, MarkedRead)
    ensures updated == [] ==> r == messages
  {
    if messages == [] || messages[|messages| - 1].outgoing {
      return messages, [];
    }
    r, updated := ReadAll(messages);
    NoUpdates(messages, MarkedRead);
  }

  lemma {:induction false} NoUpdates(messages: seq<Message>, f: Message -> Message)
    ensures Updates(messages, f) == [] ==> Each(messages, f) == messages
  {
    if messages == [] {
    } else {
      NoUpdates(messages[..|messages| - 1], f);
    }
  }

  method NormalizeAll(messages: seq<Message>) returns (r: seq<Message>)
    ensures r == Each(messages, Normalized)
  {
    r := [];
    for i := 0 to |messages|
      invariant r == Each(messages[..i], Normalized)
    {
      assert messages[..i + 1][..i] == messages[..i];
      r := r + [Normalized(messages[i])];
    }
    assert messages[..|messages|] == messages;
  }

  /** What bears on the unread counter of a conversation, in order. */
  datatype Mark = Incoming(counted: bool) | Outgoing | Seen

  /** The counted incoming messages since the last reply or mark-read. */
  function Pending(marks: seq<Mark>): nat {
    if marks == [] then 0
    else
      match marks[|marks| - 1]
      case Incoming(counted) => Pending(marks[..|marks| - 1]) + if counted then 1 else 0
      case Outgoing => 0
      case Seen => 0
  }

  datatype World = World(now: int, inbox: Inbox, marks: map<string, seq<Mark>>)

  datatype Step =
    | Tick(elapsed: nat)
    | Append(user: string, draft: Draft)
    | MarkSeen(user: string)
    | List
    | Update(user: string, id: int, status: Status)
    | ReadUpTo(user: string, maxId: int)
    | ReadAllOf(user: string)
    | Migrate(user: string)
    | Fetch(user: string, persist: bool)

  function MarkFor(d: Draft): Mark {
    if d.message.outgoing then Outgoing else Incoming(d.countUnread)
  }

  function Next(w: World, step: Step): World {
    match step
    case Tick(elapsed) => w.(now := w.now + elapsed)
    case Append(user, d) =>
      var repeat := IsRepeat(ConversationOf(w.inbox, user), d);
      w.(inbox := AfterAppend(w.inbox, user, d, w.now),
         marks := if repeat then w.marks else w.marks[user := Log(w.marks, user) + [MarkFor(d)]])
    case MarkSeen(user) =>
      w.(inbox := Change(w.inbox, user, ConversationOf(w.inbox, user).(unread := 0)),
         marks := w.marks[user := Log(w.marks, user) + [Seen]])
    case List => w.(inbox := RepairedInbox(w.inbox))
    case Update(user, id, status) =>
      w.(inbox := Change(w.inbox, user, StatusUpdated(ConversationOf(w.inbox, user), id, status)))
    case ReadUpTo(user, maxId) => w.(inbox := OverMessages(w.inbox, user, UpToId(maxId)))
    case ReadAllOf(user) => w.(inbox := OverMessages(w.inbox, user, MarkedRead))
    case Migrate(user) => w.(inbox := OverMessages(w.inbox, user, Migrated))
    case Fetch(user, persist) => w.(inbox := Change(w.inbox, user, Fetched(ConversationOf(w.inbox, user), persist)))
  }

  function Run(w: World, steps: seq<Step>): World {
    if steps == [] then w else Next(Run(w, steps[..|steps| - 1]), steps[|steps| - 1])
  }

  /** Every appended message carries a telegram id. */
  predicate Identified(steps: seq<Step>) {
    forall s :: s in steps && s.Append? ==> s.draft.telegramId != 0
  }

  function Begin(now: int): World {
    World(now, map[], map[])
  }

  function MessagesOf(w: World, user: string): seq<Message> {
    ConversationOf(w.inbox, user).messages
  }

  ghost predicate DistinctIds(messages: seq<Message>) {
    forall i, j :: 0 <= i < j < |messages| ==> messages[i].id != messages[j].id
  }

  ghost predicate ConvInv(c: Conversation, marks: seq<Mark>) {
    && |c.messages| <= MAX_MESSAGES
    && c.unread == Pending(marks)
    && (c.unread > 0 ==> c.messages != [] && !c.messages[|c.messages| - 1].outgoing)
  }

  /** Same messages in the same order, up to statuses, and same unread count. */
  ghost predicate SameShape(c: Conversation, d: Conversation) {
    && c.unread == d.unread
    && |c.messages| == |d.messages|
    && forall i :: 0 <= i < |c.messages| ==>
         c.messages[i].id == d.messages[i].id && c.messages[i].outgoing == d.messages[i].outgoing
  }

  lemma SameShapeKeepsInv(c: Conversation, d: Conversation, marks: seq<Mark>)
    requires ConvInv(c, marks) && SameShape(c, d)
    ensures ConvInv(d, marks)
  {
  }

  /** A repeated append changes neither length, order, direction, status nor unread count. */
  lemma RepeatChangesNothing(c: Conversation, d: Draft, now: int)
    requires IsRepeat(c, d)
    ensures var after := Appended(c, d, now);
            SameShape(c, after) && forall i :: 0 <= i < |c.messages| ==>
                after.messages[i].status == c.messages[i].status
  {
  }

  /** What a new message finds before it once the list is trimmed. */
  function Survivors(messages: seq<Message>): seq<Message> {
    if |messages| < MAX_MESSAGES then messages else messages[|messages| + 1 - MAX_MESSAGES..]
  }

  lemma TrimIsSurvivors(messages: seq<Message>, m: Message)
    ensures Trim(messages + [m]) == Survivors(messages) + [m]
  {
  }

  lemma DistinctSnoc(messages: seq<Message>, m: Message)
    ensures DistinctIds(messages + [m]) <==>
            DistinctIds(messages) && forall i :: 0 <= i < |messages| ==> messages[i].id != m.id
  {
    var longer := messages + [m];
    assert longer[|messages|] == m && forall i :: 0 <= i < |messages| ==> longer[i] == messages[i];
    if DistinctIds(longer) {
      forall i | 0 <= i < |messages|
        ensures messages[i].id != m.id
      {
        assert longer[i].id != longer[|messages|].id;
      }
    }
  }

  /** The guard for distinct ids: a new message takes an id that no surviving message has. */
  ghost predicate FreshId(c: Conversation, d: Draft, now: int) {
    IsRepeat(c, d) || forall i :: 0 <= i < |Survivors(c.messages)| ==> Survivors(c.messages)[i].id != d.Record(now).id
  }

  /** An append keeps the ids distinct exactly when the id it takes is fresh. */
  lemma {:induction false} AppendKeepsIdsDistinctIff(c: Conversation, d: Draft, now: int)
    requires DistinctIds(c.messages)
    ensures DistinctIds(Appended(c, d, now).messages) <==> FreshId(c, d, now)
  {
    if IsRepeat(c, d) {
      RepeatChangesNothing(c, d, now);
      SameIdsStayDistinct(c.messages, Appended(c, d, now).messages);
    } else {
      TrimIsSurvivors(c.messages, d.Record(now));
      SuffixStaysDistinct(c.messages, |c.messages| - |Survivors(c.messages)|);
      DistinctSnoc(Survivors(c.messages), d.Record(now));
    }
  }

  lemma SameIdsStayDistinct(a: seq<Message>, b: seq<Message>)
    requires |a| == |b| && forall i :: 0 <= i < |a| ==> a[i].id == b[i].id
    ensures DistinctIds(a) <==> DistinctIds(b)
  {
    assert DistinctIds(a) ==> forall i, j :: 0 <= i < j < |b| ==> a[i].id != a[j].id;
    assert DistinctIds(b) ==> forall i, j :: 0 <= i < j < |a| ==> b[i].id != b[j].id;
  }

  lemma SuffixStaysDistinct(messages: seq<Message>, n: nat)
    requires DistinctIds(messages) && n <= |messages|
    ensures DistinctIds(messages[n..])
  {
  }

  lemma TrimEndsAlike(messages: seq<Message>, m: Message)
    ensures var r := Trim(messages + [m]); 0 < |r| <= MAX_MESSAGES && r[|r| - 1] == m
  {
  }

  lemma PendingSnoc(marks: seq<Mark>, mark: Mark)
    ensures Pending(marks + [mark]) ==
            match mark { case Incoming(counted) => Pending(marks) + if counted then 1 else 0 case _ => 0 }
  {
    assert (marks + [mark])[..|marks|] == marks;
  }

  lemma AppendKeepsInv(c: Conversation, marks: seq<Mark>, d: Draft, now: int)
    requires ConvInv(c, marks)
    ensures ConvInv(Appended(c, d, now), if IsRepeat(c, d) then marks else marks + [MarkFor(d)])
  {
    if IsRepeat(c, d) {
      RepeatChangesNothing(c, d, now);
      SameShapeKeepsInv(c, Appended(c, d, now), marks);
    } else {
      TrimEndsAlike(c.messages, d.Record(now));
      PendingSnoc(marks, MarkFor(d));
    }
  }

  /** Nothing that was delivered is ever again shown as less. */
  ghost predicate NeverDrops(before: Status, after: Status) {
    before.Rank() >= Delivered.Rank() ==> after.Rank() >= before.Rank()
  }

  /** An update keeps the rank from dropping unless it reports a failure of a message that was
      not yet delivered; every other update it makes raises the rank. */
  lemma UpdateLowersRankIff(current: Status, target: Status)
    requires CanAdvance(current, target)
    ensures target.Rank() < current.Rank() <==> target.Failed?
    ensures target.Failed? ==> current.Rank() < Delivered.Rank()
  {
  }

  /** A change of one message that keeps its identity and loses no delivered or read status. */
  ghost predicate Kept(before: Message, after: Message) {
    && before.id == after.id
    && before.outgoing == after.outgoing
    && (before.outgoing ==> NeverDrops(before.status, after.status) && (before.status.Read? ==> after.status.Read?))
  }

  ghost predicate Progress(before: seq<Message>, after: seq<Message>) {
    |before| == |after| && forall i :: 0 <= i < |before| ==> Kept(before[i], after[i])
  }

  lemma {:induction false} FindByIds(a: seq<Message>, b: seq<Message>, id: int)
    requires |a| == |b| && forall i :: 0 <= i < |a| ==> a[i].id == b[i].id
    ensures Find(a, id) == Find(b, id)
  {
    if a == [] || a[0].id == id {
    } else {
      FindByIds(a[1..], b[1..], id);
    }
  }

  ghost predicate LosesNothing(f: Message -> Message) {
    forall m: Message :: Kept(m, f(m))
  }

  lemma ReadUpToLosesNothing(maxId: int)
    ensures LosesNothing(UpToId(maxId))
  {
  }

  lemma MarkedReadLosesNothing()
    ensures LosesNothing(MarkedRead)
  {
  }

  lemma MigratedLosesNothing()
    ensures LosesNothing(Migrated)
  {
  }

  lemma EachProgresses(messages: seq<Message>, f: Message -> Message)
    requires LosesNothing(f)
    ensures Progress(messages, Each(messages, f))
  {
  }

  lemma ChangeProgresses(inbox: Inbox, u: string, c: Conversation, user: string)
    requires Progress(ConversationOf(inbox, u).messages, c.messages)
    ensures Progress(ConversationOf(inbox, user).messages, ConversationOf(Change(inbox, u, c), user).messages)
  {
  }

  lemma OverMessagesProgresses(inbox: Inbox, u: string, f: Message -> Message, user: string)
    requires LosesNothing(f)
    ensures Progress(ConversationOf(inbox, user).messages, ConversationOf(OverMessages(inbox, u, f), user).messages)
  {
    var c := ConversationOf(inbox, u);
    EachProgresses(c.messages, f);
    ChangeProgresses(inbox, u, c.(messages := Each(c.messages, f)), user);
  }

  lemma RepeatProgresses(inbox: Inbox, u: string, d: Draft, now: int, user: string)
    requires u != user || IsRepeat(ConversationOf(inbox, user), d)
    ensures Progress(ConversationOf(inbox, user).messages, ConversationOf(AfterAppend(inbox, u, d, now), user).messages)
  {
    if u == user {
      RepeatChangesNothing(ConversationOf(inbox, user), d, now);
    }
  }

  lemma UpdateProgresses(inbox: Inbox, u: string, id: int, status: Status, user: string)
    ensures Progress(ConversationOf(inbox, user).messages,
                     ConversationOf(
                       Change(inbox, u, StatusUpdated(ConversationOf(inbox, u), id, status)), user).messages)
  {
    var c := ConversationOf(inbox, u);
    var i := Find(c.messages, id);
    if i < |c.messages| && CanAdvance(c.messages[i].status.OrSent(), status) {
      UpdateLowersRankIff(c.messages[i].status.OrSent(), status);
    }
    ChangeProgresses(inbox, u, StatusUpdated(c, id, status), user);
  }

  lemma FetchProgresses(inbox: Inbox, u: string, persist: bool, user: string)
    ensures Progress(ConversationOf(inbox, user).messages,
                     ConversationOf(Change(inbox, u, Fetched(ConversationOf(inbox, u), persist)), user).messages)
  {
    var c := ConversationOf(inbox, u);
    var migrated := Each(c.messages, Migrated);
    MigratedLosesNothing();
    EachProgresses(c.messages, Migrated);
    MarkedReadLosesNothing();
    EachProgresses(migrated, MarkedRead);
    assert Progress(migrated, InferredRead(migrated));
    ProgressTransitive(c.messages, migrated, InferredRead(migrated));
    ChangeProgresses(inbox, u, Fetched(c, persist), user);
  }

  lemma ProgressTransitive(a: seq<Message>, b: seq<Message>, c: seq<Message>)
    requires Progress(a, b) && Progress(b, c)
    ensures Progress(a, c)
  {
  }

  lemma RepairProgresses(inbox: Inbox, user: string)
    ensures Progress(ConversationOf(inbox, user).messages, ConversationOf(RepairedInbox(inbox), user).messages)
  {
  }

  /** Every step but the append of a new message is progress on the messages of every conversation. */
  lemma StepProgresses(w: World, step: Step, user: string)
    requires step.Append? ==> step.user != user || IsRepeat(ConversationOf(w.inbox, user), step.draft)
    ensures Progress(ConversationOf(w.inbox, user).messages, ConversationOf(Next(w, step).inbox, user).messages)
  {
    match step {
      case Tick(_) =>
      case Append(u, d) => RepeatProgresses(w.inbox, u, d, w.now, user);
      case MarkSeen(u) => ChangeProgresses(w.inbox, u, ConversationOf(w.inbox, u).(unread := 0), user);
      case List => RepairProgresses(w.inbox, user);
      case Update(u, id, status) => UpdateProgresses(w.inbox, u, id, status, user);
      case ReadUpTo(u, maxId) => ReadUpToLosesNothing(maxId); OverMessagesProgresses(w.inbox, u, UpToId(maxId), user);
      case ReadAllOf(u) => MarkedReadLosesNothing(); OverMessagesProgresses(w.inbox, u, MarkedRead, user);
      case Migrate(u) => MigratedLosesNothing(); OverMessagesProgresses(w.inbox, u, Migrated, user);
      case Fetch(u, persist) => FetchProgresses(w.inbox, u, persist, user);
    }
  }

  lemma ProgressKeepsInv(c: Conversation, d: Conversation, marks: seq<Mark>)
    requires ConvInv(c, marks) && Progress(c.messages, d.messages) && c.unread == d.unread
    ensures ConvInv(d, marks)
  {
    assert SameShape(c, d);
    SameShapeKeepsInv(c, d, marks);
  }

  /** Appends and mark-reads aside, no step touches an unread count, unless to repair it. */
  lemma StepKeepsUnread(w: World, step: Step, user: string)
    requires !step.Append? && !step.MarkSeen? && !NeedsRepair(ConversationOf(w.inbox, user))
    ensures ConversationOf(Next(w, step).inbox, user).unread == ConversationOf(w.inbox, user).unread
    ensures Next(w, step).marks == w.marks
  {
  }

  lemma AppendStepKeepsInv(w: World, u: string, d: Draft, user: string)
    requires ConvInv(ConversationOf(w.inbox, user), Log(w.marks, user))
    ensures ConvInv(ConversationOf(Next(w, Append(u, d)).inbox, user), Log(Next(w, Append(u, d)).marks, user))
  {
    if u == user {
      AppendKeepsInv(ConversationOf(w.inbox, user), Log(w.marks, user), d, w.now);
    }
  }

  lemma MarkSeenKeepsInv(w: World, u: string, user: string)
    requires ConvInv(ConversationOf(w.inbox, user), Log(w.marks, user))
    ensures ConvInv(ConversationOf(Next(w, MarkSeen(u)).inbox, user), Log(Next(w, MarkSeen(u)).marks, user))
  {
    PendingSnoc(Log(w.marks, u), Seen);
  }

  lemma StepKeepsInv(w: World, step: Step, user: string)
    requires ConvInv(ConversationOf(w.inbox, user), Log(w.marks, user))
    ensures ConvInv(ConversationOf(Next(w, step).inbox, user), Log(Next(w, step).marks, user))
  {
    if step.Append? {
      AppendStepKeepsInv(w, step.user, step.draft, user);
    } else if step.MarkSeen? {
      MarkSeenKeepsInv(w, step.user, user);
    } else {
      StepProgresses(w, step, user);
      StepKeepsUnread(w, step, user);
      ProgressKeepsInv(ConversationOf(w.inbox, user), ConversationOf(Next(w, step).inbox, user), Log(w.marks, user));
    }
  }

  lemma {:induction false} RunKeepsInv(start: int, steps: seq<Step>, user: string)
    ensures var w := Run(Begin(start), steps); ConvInv(ConversationOf(w.inbox, user), Log(w.marks, user))
  {
    if steps == [] {
    } else {
      RunKeepsInv(start, steps[..|steps| - 1], user);
      StepKeepsInv(Run(Begin(start), steps[..|steps| - 1]), steps[|steps| - 1], user);
    }
  }

  /** Main result on conversations. Over every run, with or without telegram ids, a conversation
      has at most 300 messages, its unread count is the number of counted incoming messages since
      the last reply or mark-read, and listing repairs nothing. */
  lemma {:induction false} ConversationsStaySound(start: int, steps: seq<Step>, user: string)
    ensures var w := Run(Begin(start), steps);
            var c := ConversationOf(w.inbox, user);
            && |c.messages| <= MAX_MESSAGES
            && c.unread == Pending(Log(w.marks, user))
            && !NeedsRepair(c)
  {
    RunKeepsInv(start, steps, user);
  }

  /** The ids of the conversation are distinct now and were so after every earlier step. */
  ghost predicate DistinctThroughout(w: World, steps: seq<Step>, user: string) {
    && DistinctIds(MessagesOf(Run(w, steps), user))
    && (steps == [] || DistinctThroughout(w, steps[..|steps| - 1], user))
  }

  /** Every append to the conversation took a fresh id. */
  ghost predicate FreshThroughout(w: World, steps: seq<Step>, user: string) {
    steps == [] ||
    var init, last := steps[..|steps| - 1], steps[|steps| - 1];
    && FreshThroughout(w, init, user)
    && (last.Append? && last.user == user ==>
          FreshId(ConversationOf(Run(w, init).inbox, user), last.draft, Run(w, init).now))
  }

  lemma StepKeepsIdsDistinctIff(w: World, step: Step, user: string)
    requires DistinctIds(MessagesOf(w, user))
    ensures DistinctIds(MessagesOf(Next(w, step), user)) <==>
            (step.Append? && step.user == user ==> FreshId(ConversationOf(w.inbox, user), step.draft, w.now))
  {
    if step.Append? && step.user == user {
      AppendKeepsIdsDistinctIff(ConversationOf(w.inbox, user), step.draft, w.now);
    } else {
      StepProgresses(w, step, user);
      SameIdsStayDistinct(MessagesOf(w, user), MessagesOf(Next(w, step), user));
    }
  }

  /** Main result on ids. Throughout a run the ids of a conversation stay distinct exactly when
      every append takes a fresh id. */
  lemma {:induction false} IdsStayDistinctIff(start: int, steps: seq<Step>, user: string)
    ensures DistinctThroughout(Begin(start), steps, user) <==> FreshThroughout(Begin(start), steps, user)
  {
    if steps == [] {
    } else {
      var init := steps[..|steps| - 1];
      IdsStayDistinctIff(start, init, user);
      if DistinctThroughout(Begin(start), init, user) {
        StepKeepsIdsDistinctIff(Run(Begin(start), init), steps[|steps| - 1], user);
      }
    }
  }

  /** Telegram ids are always fresh, since a stored one is a repeat. */
  lemma {:induction false} TelegramIdsStayDistinct(start: int, steps: seq<Step>, user: string)
    requires Identified(steps)
    ensures FreshThroughout(Begin(start), steps, user)
    ensures DistinctIds(MessagesOf(Run(Begin(start), steps), user))
  {
    if steps == [] {
    } else {
      var init, last := steps[..|steps| - 1], steps[|steps| - 1];
      assert last in steps && forall s :: s in init ==> s in steps;
      TelegramIdsStayDistinct(start, init, user);
      if last.Append? && last.user == user {
        TelegramIdIsFresh(ConversationOf(Run(Begin(start), init).inbox, user), last.draft, Run(Begin(start), init).now);
      }
      StepKeepsIdsDistinctIff(Run(Begin(start), init), last, user);
    }
  }

  lemma TelegramIdIsFresh(c: Conversation, d: Draft, now: int)
    requires d.telegramId != 0
    ensures FreshId(c, d, now)
  {
    if !IsRepeat(c, d) {
      assert forall i :: 0 <= i < |c.messages| ==> c.messages[i].id != d.telegramId;
    }
  }

  lemma RunSnoc(w: World, steps: seq<Step>, step: Step)
    ensures Run(w, steps + [step]) == Next(Run(w, steps), step)
  {
    assert (steps + [step])[..|steps|] == steps;
  }

  /** Ids made from the clock need not be fresh: from any time on, two messages without telegram
      ids appended in the same millisecond share an id. */
  lemma {:induction false} ClockIdsMayCollide(start: int, first: Message, second: Message)
    ensures var steps := [] + [Append("u", Draft(0, first, false))] + [Append("u", Draft(0, second, false))];
            !DistinctThroughout(Begin(start), steps, "u") && |MessagesOf(Run(Begin(start), steps), "u")| == 2
  {
    var a, b := Append("u", Draft(0, first, false)), Append("u", Draft(0, second, false));
    RunSnoc(Begin(start), [], a);
    RunSnoc(Begin(start), [] + [a], b);
    TwoFromTheClock(start, first, second);
  }

  lemma TwoFromTheClock(start: int, first: Message, second: Message)
    ensures var a, b := Append("u", Draft(0, first, false)), Append("u", Draft(0, second, false));
            var messages := MessagesOf(Next(Next(Begin(start), a), b), "u");
            |messages| == 2 && messages[0].id == messages[1].id == start
  {
    var a := Append("u", Draft(0, first, false));
    assert MessagesOf(Next(Begin(start), a), "u") == [first.(id := start)];
  }

  /** The new messages of a conversation. */
  function Added(w: World, steps: seq<Step>, user: string): nat {
    if steps == [] then 0
    else
      var init := steps[..|steps| - 1];
      Added(w, init, user) + if IsNew(Run(w, init), steps[|steps| - 1], user) then 1 else 0
  }

  predicate IsNew(w: World, step: Step, user: string) {
    step.Append? && step.user == user && !IsRepeat(ConversationOf(w.inbox, user), step.draft)
  }

  /** After `added` new messages at its end, the list has lost its oldest ones, as many as its length
      tells; all others moved up by that much and kept what they were, no delivered status lost. */
  ghost predicate Carried(before: seq<Message>, after: seq<Message>, added: nat) {
    && |after| <= |before| + added
    && forall j :: 0 <= j < |after| - added ==> Kept(before[j + (|before| + added - |after|)], after[j])
  }

  lemma CarriedOn(a: seq<Message>, b: seq<Message>, c: seq<Message>, m: nat, n: nat)
    requires Carried(a, b, m) && Carried(b, c, n)
    ensures Carried(a, c, m + n)
  {
    forall j | 0 <= j < |c| - m - n
      ensures Kept(a[j + (|a| + m + n - |c|)], c[j])
    {
      var k := j + (|b| + n - |c|);
      assert Kept(b[k], c[j]);
      assert Kept(a[k + (|a| + m - |b|)], b[k]);
    }
  }

  lemma NewIsCarried(messages: seq<Message>, m: Message)
    ensures Carried(messages, Survivors(messages) + [m], 1)
  {
    var after, lost := Survivors(messages) + [m], |messages| - |Survivors(messages)|;
    forall j | 0 <= j < |after| - 1
      ensures Kept(messages[j + lost], after[j])
    {
      assert after[j] == Survivors(messages)[j] == messages[j + lost];
    }
  }

  lemma ProgressIsCarried(before: seq<Message>, after: seq<Message>)
    requires Progress(before, after)
    ensures Carried(before, after, 0)
  {
  }

  lemma NewIsAppended(w: World, step: Step, user: string)
    requires IsNew(w, step, user)
    ensures MessagesOf(Next(w, step), user) == Survivors(MessagesOf(w, user)) + [step.draft.Record(w.now)]
  {
    TrimIsSurvivors(MessagesOf(w, user), step.draft.Record(w.now));
  }

  lemma StepCarries(w: World, step: Step, user: string)
    ensures Carried(MessagesOf(w, user), MessagesOf(Next(w, step), user), if IsNew(w, step, user) then 1 else 0)
  {
    if IsNew(w, step, user) {
      NewIsAppended(w, step, user);
      NewIsCarried(MessagesOf(w, user), step.draft.Record(w.now));
    } else {
      StepProgresses(w, step, user);
      ProgressIsCarried(MessagesOf(w, user), MessagesOf(Next(w, step), user));
    }
  }

  lemma StepCarriesOn(first: seq<Message>, added: nat, w: World, step: Step, user: string)
    requires Carried(first, MessagesOf(w, user), added)
    ensures Carried(first, MessagesOf(Next(w, step), user), added + if IsNew(w, step, user) then 1 else 0)
  {
    StepCarries(w, step, user);
    var n := if IsNew(w, step, user) then 1 else 0;
    CarriedOn(first, MessagesOf(w, user), MessagesOf(Next(w, step), user), added, n);
  }

  lemma NothingIsCarried(messages: seq<Message>)
    ensures Carried(messages, messages, 0)
  {
  }

  /** The same fact about a run, by its last step. */
  ghost predicate RunCarries(w: World, steps: seq<Step>, user: string) {
    Carried(MessagesOf(w, user), MessagesOf(Run(w, steps), user), Added(w, steps, user))
  }

  lemma RunCarriesOn(w: World, init: seq<Step>, last: Step, user: string)
    requires RunCarries(w, init, user)
    ensures RunCarries(w, init + [last], user)
  {
    assert (init + [last])[..|init|] == init;
    StepCarriesOn(MessagesOf(w, user), Added(w, init, user), Run(w, init), last, user);
  }

  /** Main result on delivery, by place. From any inbox and over every run, with or without telegram
      ids, the messages of a conversation but for the oldest ones dropped stay in order before the new
      ones; each is still the same message, once delivered it never drops below delivered, and once
      read it stays read. */
  lemma {:induction false} DeliveredKeepsItsPlace(w: World, steps: seq<Step>, user: string)
    ensures Carried(MessagesOf(w, user), MessagesOf(Run(w, steps), user), Added(w, steps, user))
  {
    if steps == [] {
      NothingIsCarried(MessagesOf(w, user));
    } else {
      var init, last := steps[..|steps| - 1], steps[|steps| - 1];
      DeliveredKeepsItsPlace(w, init, user);
      RunCarriesOn(w, init, last, user);
      assert init + [last] == steps;
    }
  }

  /** No message behind the first one with the id has it too. */
  ghost predicate HasOnce(messages: seq<Message>, id: int) {
    Stored(messages, id) && forall j :: Find(messages, id) < j < |messages| ==> messages[j].id != id
  }

  lemma DistinctIdsAreHeldOnce(messages: seq<Message>, id: int)
    requires DistinctIds(messages) && Stored(messages, id)
    ensures HasOnce(messages, id)
  {
  }

  function MessageOf(w: World, user: string, id: int): Message
    requires Stored(MessagesOf(w, user), id)
  {
    MessagesOf(w, user)[Find(MessagesOf(w, user), id)]
  }

  /** The step appends a message that takes this very id from the clock. */
  predicate ClockTakes(w: World, step: Step, user: string, id: int) {
    step.Append? && step.user == user && step.draft.telegramId == 0 && w.now == id
  }

  /** A message that a new append leaves stored is left as it was, unless the new one takes its id. */
  lemma {:induction false} AppendKeepsMessage(messages: seq<Message>, m: Message, id: int)
    requires HasOnce(messages, id) && m.id != id && Stored(Survivors(messages) + [m], id)
    ensures var after := Survivors(messages) + [m];
            HasOnce(after, id) && after[Find(after, id)] == messages[Find(messages, id)]
  {
    var after, lost := Survivors(messages) + [m], |messages| - |Survivors(messages)|;
    var f := Find(after, id);
    assert f < |Survivors(messages)| && after[f] == messages[f + lost];
    assert f + lost == Find(messages, id);
    assert forall j :: f < j < |Survivors(messages)| ==> after[j] == messages[j + lost];
  }

  lemma ProgressKeepsMessage(before: seq<Message>, after: seq<Message>, id: int)
    requires HasOnce(before, id) && Progress(before, after)
    ensures HasOnce(after, id) && Kept(before[Find(before, id)], after[Find(after, id)])
  {
    FindByIds(before, after, id);
  }

  lemma {:induction false} StepNeverDrops(w: World, step: Step, user: string, id: int)
    requires HasOnce(MessagesOf(w, user), id) && !ClockTakes(w, step, user, id)
    requires Stored(MessagesOf(Next(w, step), user), id)
    ensures HasOnce(MessagesOf(Next(w, step), user), id)
    ensures Kept(MessageOf(w, user, id), MessageOf(Next(w, step), user, id))
  {
    if IsNew(w, step, user) {
      var record := step.draft.Record(w.now);
      NewIsAppended(w, step, user);
      AppendKeepsMessage(MessagesOf(w, user), record, id);
    } else {
      StepProgresses(w, step, user);
      ProgressKeepsMessage(MessagesOf(w, user), MessagesOf(Next(w, step), user), id);
    }
  }

  /** At no point of the run does the id go out of the list, or the clock give it to another message. */
  ghost predicate StaysStored(w: World, steps: seq<Step>, user: string, id: int) {
    && Stored(MessagesOf(Run(w, steps), user), id)
    && (steps == [] ||
        var init := steps[..|steps| - 1];
        StaysStored(w, init, user, id) && !ClockTakes(Run(w, init), steps[|steps| - 1], user, id))
  }

  /** The same by id. While a message stays stored under an id that only it has, through appends,
      status updates, bulk reads, migration and fetches, a delivered message never drops below
      delivered, and a read one stays read. */
  lemma {:induction false} DeliveredStaysDelivered(w: World, steps: seq<Step>, user: string, id: int)
    requires HasOnce(MessagesOf(w, user), id) && StaysStored(w, steps, user, id)
    ensures HasOnce(MessagesOf(Run(w, steps), user), id)
    ensures var before, after := MessageOf(w, user, id), MessageOf(Run(w, steps), user, id);
            && before.outgoing == after.outgoing
            && (before.outgoing ==> NeverDrops(before.status, after.status))
            && (before.outgoing && before.status.Read? ==> after.status.Read?)
  {
    if steps == [] {
    } else {
      var init := steps[..|steps| - 1];
      DeliveredStaysDelivered(w, init, user, id);
      StepNeverDrops(Run(w, init), steps[|steps| - 1], user, id);
    }
  }
}
