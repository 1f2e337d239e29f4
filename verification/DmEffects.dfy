/** What each operation on the inbox brings about, message by message, from any inbox. */
module DmEffects {
  import opened Sequences
  import opened Text
  import opened DmStore

  /** The statuses that a reported status takes the place of. A failure is reported of a message on its
      way only; otherwise a later stage takes the place of an earlier one. A blank status reads as sent. */
  predicate TakesOver(current: Status, reported: Status) {
    match reported
    case Read => current != Read
    case Delivered => current != Delivered && current != Read
    case Sent => current == Sending || current == Failed || (current.Unranked? && current.text != "")
    case Sending => current == Failed || (current.Unranked? && current.text != "")
    case Failed => current == Sending || current == Sent || current == Unranked("")
    case Unranked(_) => false
  }

  lemma AdvancesIff(current: Status, reported: Status)
    ensures CanAdvance(current.OrSent(), reported) <==> TakesOver(current, reported)
  {
  }

  /** Only one conversation is concerned, and of it only the messages. */
  ghost predicate OnlyMessagesOf(w: World, v: World, user: string) {
    && v.inbox.Keys == w.inbox.Keys
    && (forall u :: u in w.inbox && u != user ==> v.inbox[u] == w.inbox[u])
    && (user in w.inbox ==> v.inbox[user].unread == w.inbox[user].unread)
    && |MessagesOf(v, user)| == |MessagesOf(w, user)|
  }

  /** Main result on updates. The message found by its id takes the reported status exactly if it is
      outbound and the status takes the place of the one it has; nothing else changes. */
  lemma {:induction false} UpdateTakesEffectIff(w: World, user: string, id: int, status: Status)
    ensures var v := Next(w, Update(user, id, status));
            var before, after := MessagesOf(w, user), MessagesOf(v, user);
            && OnlyMessagesOf(w, v, user)
            && (forall i :: 0 <= i < |before| && i != Find(before, id) ==> after[i] == before[i])
            && (Stored(before, id) ==>
                  var m := before[Find(before, id)];
                  after[Find(before, id)] ==
                  if m.outgoing && TakesOver(m.status, status) then m.(status := status) else m)
  {
    var before := MessagesOf(w, user);
    if Stored(before, id) {
      AdvancesIff(before[Find(before, id)].status, status);
    }
  }

  /** So a read receipt always leaves an outbound message read, and a delivery receipt leaves it
      delivered or read, whatever its status was; a failure leaves it failed only on its way. */
  lemma {:induction false} ReceiptsTakeEffect(w: World, user: string, id: int)
    requires Stored(MessagesOf(w, user), id) && MessageOf(w, user, id).outgoing
    ensures Stored(MessagesOf(Next(w, Update(user, id, Read)), user), id)
    ensures MessageOf(Next(w, Update(user, id, Read)), user, id).status == Read
    ensures Stored(MessagesOf(Next(w, Update(user, id, Delivered)), user), id)
    ensures MessageOf(Next(w, Update(user, id, Delivered)), user, id).status in {Delivered, Read}
    ensures Stored(MessagesOf(Next(w, Update(user, id, Failed)), user), id)
    ensures MessageOf(Next(w, Update(user, id, Failed)), user, id).status == Failed <==>
            MessageOf(w, user, id).status in {Failed, Sending, Sent, Unranked("")}
  {
    ReceiptKeepsPlace(w, user, id, Read);
    ReceiptKeepsPlace(w, user, id, Delivered);
    ReceiptKeepsPlace(w, user, id, Failed);
  }

  lemma ReceiptKeepsPlace(w: World, user: string, id: int, status: Status)
    requires Stored(MessagesOf(w, user), id) && MessageOf(w, user, id).outgoing
    ensures var m, v := MessageOf(w, user, id), Next(w, Update(user, id, status));
            && Stored(MessagesOf(v, user), id)
            && MessageOf(v, user, id) == if TakesOver(m.status, status) then m.(status := status) else m
  {
    var v := Next(w, Update(user, id, status));
    UpdateTakesEffectIff(w, user, id, status);
    FindByIds(MessagesOf(w, user), MessagesOf(v, user), id);
  }

  /** A read receipt up to an id makes exactly the outbound messages up to it read. */
  lemma {:induction false} ReadUpToTakesEffect(w: World, user: string, maxId: int)
    ensures var v := Next(w, ReadUpTo(user, maxId));
            var before, after := MessagesOf(w, user), MessagesOf(v, user);
            && OnlyMessagesOf(w, v, user)
            && forall i :: 0 <= i < |before| ==>
                 after[i] ==
                 if before[i].outgoing && 0 < before[i].id <= maxId then before[i].(status := Read) else before[i]
  {
  }

  lemma {:induction false} ReadAllTakesEffect(w: World, user: string)
    ensures var v := Next(w, ReadAllOf(user));
            var before, after := MessagesOf(w, user), MessagesOf(v, user);
            && OnlyMessagesOf(w, v, user)
            && forall i :: 0 <= i < |before| ==>
                 after[i] == if before[i].outgoing then before[i].(status := Read) else before[i]
  {
  }

  /** The migration leaves no outbound message stored as sent. */
  lemma {:induction false} MigrationTakesEffect(w: World, user: string)
    ensures var v := Next(w, Migrate(user));
            var before, after := MessagesOf(w, user), MessagesOf(v, user);
            && OnlyMessagesOf(w, v, user)
            && (forall i :: 0 <= i < |before| ==>
                  after[i] ==
                  if before[i].outgoing && before[i].status == Sent then before[i].(status := Delivered) else before[i])
            && forall i :: 0 <= i < |after| ==> !(after[i].outgoing && after[i].status == Sent)
  {
  }

  /** The contact wrote the last message. */
  predicate ContactWroteLast(messages: seq<Message>) {
    messages != [] && !messages[|messages| - 1].outgoing
  }

  /** Fetching migrates, and if the contact wrote last and hints are kept makes all outbound messages read. */
  lemma {:induction false} FetchTakesEffect(w: World, user: string, persist: bool)
    ensures var v := Next(w, Fetch(user, persist));
            var before, after := MessagesOf(w, user), MessagesOf(v, user);
            && OnlyMessagesOf(w, v, user)
            && forall i :: 0 <= i < |before| ==>
                 after[i] ==
                 if !before[i].outgoing then before[i]
                 else if persist && ContactWroteLast(before) then before[i].(status := Read)
                 else if before[i].status == Sent then before[i].(status := Delivered) else before[i]
  {
  }

  /** What is shown of a conversation: outbound messages are read if the contact wrote last, and never sent
      or without a status. */
  lemma {:induction false} ShownStatuses(c: Conversation)
    ensures |Shown(c)| == |c.messages|
    ensures forall i :: 0 <= i < |c.messages| ==>
              var m := c.messages[i];
              Shown(c)[i] ==
              if !m.outgoing then m
              else if ContactWroteLast(c.messages) then m.(status := Read)
              else if m.status == Sent || m.status == Unranked("") then m.(status := Delivered) else m
  {
  }

  /** Listing clears the unread count of exactly the conversations in which we wrote last. */
  lemma {:induction false} ListingTakesEffect(w: World, user: string)
    ensures var v := Next(w, List);
            && v.inbox.Keys == w.inbox.Keys
            && (user in w.inbox ==>
                  var c := w.inbox[user];
                  v.inbox[user] == if c.messages != [] && !ContactWroteLast(c.messages) then c.(unread := 0) else c)
  {
  }

  lemma {:induction false} MarkSeenTakesEffect(w: World, user: string, other: string)
    ensures var v := Next(w, MarkSeen(user));
            && v.inbox.Keys == w.inbox.Keys
            && (other in w.inbox ==>
                  v.inbox[other] == if other == user then w.inbox[other].(unread := 0) else w.inbox[other])
  {
  }

  /** A message with this id is stored. */
  ghost predicate Has(messages: seq<Message>, id: int) {
    exists m :: m in messages && m.id == id
  }

  lemma HasIsStored(messages: seq<Message>, id: int)
    ensures Has(messages, id) <==> Stored(messages, id)
  {
    if Stored(messages, id) {
      assert messages[Find(messages, id)] in messages;
    }
  }

  /** Main result on appends. A message whose telegram id is stored fills in media details, and a missing
      text with them, of a message that has none, and changes nothing else. */
  lemma {:induction false} RepeatTakesEffect(w: World, user: string, d: Draft)
    requires d.telegramId != 0 && Has(MessagesOf(w, user), d.telegramId)
    ensures var v := Next(w, Append(user, d));
            var before, after := MessagesOf(w, user), MessagesOf(v, user);
            var i := Find(before, d.telegramId);
            && i < |before| && OnlyMessagesOf(w, v, user)
            && (forall j :: 0 <= j < |before| && j != i ==> after[j] == before[j])
            && var m, n := before[i], d.message;
               after[i] ==
               if m.mediaType == "" && (n.media || n.mediaType != "") then
                 m.(media := true, mediaType := n.mediaType,
                    text := if Strip(m.text) == "" && Strip(n.text) != "" then n.text else m.text)
               else m
  {
    HasIsStored(MessagesOf(w, user), d.telegramId);
  }

  /** Any other message goes in at the end, under its telegram id or the clock's, and the oldest one goes
      out if there were 300; a counted incoming message raises the unread count, our own clears it. */
  lemma {:induction false} AppendTakesEffect(w: World, user: string, d: Draft)
    requires d.telegramId == 0 || !Has(MessagesOf(w, user), d.telegramId)
    requires |MessagesOf(w, user)| <= 300
    ensures var v := Next(w, Append(user, d));
            var before, after := MessagesOf(w, user), MessagesOf(v, user);
            && (forall u :: u != user ==> (u in v.inbox <==> u in w.inbox))
            && (forall u :: u != user && u in w.inbox ==> v.inbox[u] == w.inbox[u])
            && user in v.inbox
            && after == (if |before| < 300 then before else before[1..]) +
                        [d.message.(id := if d.telegramId != 0 then d.telegramId else w.now)]
            && v.inbox[user].unread ==
               if d.message.outgoing then 0
               else ConversationOf(w.inbox, user).unread + if d.countUnread then 1 else 0
  {
    HasIsStored(MessagesOf(w, user), d.telegramId);
  }

  /** Over every run a conversation holds all messages that were new, up to the last 300. */
  lemma {:induction false} HoldsTheLast300(start: int, steps: seq<Step>, user: string)
    ensures var added := Added(Begin(start), steps, user);
            |MessagesOf(Run(Begin(start), steps), user)| == if added < 300 then added else 300
  {
    if steps == [] {
    } else {
      var init, last := steps[..|steps| - 1], steps[|steps| - 1];
      HoldsTheLast300(start, init, user);
      StepLengthens(Run(Begin(start), init), last, user);
    }
  }

  lemma StepLengthens(w: World, step: Step, user: string)
    requires |MessagesOf(w, user)| <= 300
    ensures var n := |MessagesOf(w, user)|;
            |MessagesOf(Next(w, step), user)| == if IsNew(w, step, user) && n < 300 then n + 1 else n
  {
    if IsNew(w, step, user) {
      NewIsAppended(w, step, user);
    } else {
      StepProgresses(w, step, user);
    }
  }
}
