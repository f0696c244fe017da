/**
 * The loop every handler runs over a family's members after a change to the
 * list: each member is shown the new list, by deleting the old message and
 * sending a new one or by editing the old message in place, and the ids of
 * freshly sent messages are remembered for the next round.
 */
module FanOut {
  import opened Wrappers
  import opened Tables
  import opened Telegram
  import FamilyRepository

  /**
   * How a member who already has a list message is treated: the text
   * handlers delete it and send anew, the newer buy handler edits it.
   */
  datatype Mode = Resend | EditInPlace

  /** A member whose stored message id is set and non-zero has a list message on screen. */
  predicate HasShownList(u: User) {
    u.lastMessageId.Some? && u.lastMessageId.value != 0
  }

  /** Whether the member is sent a fresh message in this round. */
  predicate Sends(mode: Mode, u: User) {
    mode == Resend || !HasShownList(u)
  }

  /** The calls made for one member, in order. */
  function MemberEvents(mode: Mode, u: User, text: Text, keyboard: Keyboard): seq<Event> {
    match mode
    case Resend =>
      (if HasShownList(u) then [DeleteMessage(u.chatId, u.lastMessageId.value)] else [])
      + [SendMessage(u.chatId, text, Some(keyboard))]
    case EditInPlace =>
      if HasShownList(u) then [EditMessageText(u.chatId, u.lastMessageId.value, text, keyboard)]
      else [SendMessage(u.chatId, text, Some(keyboard))]
  }

  /** The calls of a whole round, member after member. */
  function RoundEvents(mode: Mode, users: seq<User>, text: Text, keyboard: Keyboard): seq<Event>
    decreases |users|
  {
    if users == [] then []
    else RoundEvents(mode, users[..|users| - 1], text, keyboard) + MemberEvents(mode, users[|users| - 1], text, keyboard)
  }

  /** How many messages a round sends. */
  function SendCount(mode: Mode, users: seq<User>): nat
    decreases |users|
  {
    if users == [] then 0
    else SendCount(mode, users[..|users| - 1]) + (if Sends(mode, users[|users| - 1]) then 1 else 0)
  }

  /** The answer to the `k`-th send of a run, given the answers the Bot API will give. */
  function Reply(replies: seq<Option<int>>, k: nat): Option<int> {
    if k < |replies| then replies[k] else None
  }

  /** The answers left after `k` sends. */
  function Consumed(replies: seq<Option<int>>, k: nat): seq<Option<int>> {
    if k <= |replies| then replies[k..] else []
  }

  /** The id of the message member `i` was freshly sent, if it was sent one and the send succeeded. */
  function Outcome(mode: Mode, users: seq<User>, replies: seq<Option<int>>, i: nat): Option<int>
    requires i < |users|
  {
    if Sends(mode, users[i]) then Reply(replies, SendCount(mode, users[..i])) else None
  }

  /** Member `i` once the loop has passed it: the new message id when one was sent, else unchanged. */
  function Updated(mode: Mode, users: seq<User>, replies: seq<Option<int>>, i: nat): User
    requires i < |users|
  {
    match Outcome(mode, users, replies, i)
    case Some(m) => users[i].(lastMessageId := Some(m))
    case None => users[i]
  }

  /** The roster after the loop, every member in place. */
  function Refreshed(mode: Mode, users: seq<User>, replies: seq<Option<int>>): seq<User>
    decreases |users|
  {
    if users == [] then []
    else
      assert users[..|users| - 1][..|users| - 1] == users[..|users| - 1];
      Refreshed(mode, users[..|users| - 1], replies) + [Updated(mode, users, replies, |users| - 1)]
  }

  /** The members whose fresh send succeeded, updated, in roster order. */
  function Recorded(mode: Mode, users: seq<User>, replies: seq<Option<int>>): seq<User>
    decreases |users|
  {
    if users == [] then []
    else
      Recorded(mode, users[..|users| - 1], replies)
      + (if Outcome(mode, users, replies, |users| - 1).Some? then [Updated(mode, users, replies, |users| - 1)] else [])
  }

  /** Outcomes of a prefix of the roster are the outcomes of the roster. */
  lemma OutcomePrefix(mode: Mode, users: seq<User>, replies: seq<Option<int>>, n: nat, i: nat)
    requires i < n <= |users|
    ensures Outcome(mode, users[..n], replies, i) == Outcome(mode, users, replies, i)
    ensures Updated(mode, users[..n], replies, i) == Updated(mode, users, replies, i)
  {
    assert users[..n][..i] == users[..i];
  }

  // ---------------------------------------------------------------------------
  // The loop
  // ---------------------------------------------------------------------------

  /** One more member extends every quantity of a round by that member's share. */
  lemma RoundStep(mode: Mode, users: seq<User>, replies: seq<Option<int>>, text: Text, keyboard: Keyboard, i: nat)
    requires i < |users|
    ensures RoundEvents(mode, users[..i + 1], text, keyboard) == RoundEvents(mode, users[..i], text, keyboard) + MemberEvents(mode, users[i], text, keyboard)
    ensures SendCount(mode, users[..i + 1]) == SendCount(mode, users[..i]) + (if Sends(mode, users[i]) then 1 else 0)
    ensures Outcome(mode, users, replies, i) == if Sends(mode, users[i]) then Reply(replies, SendCount(mode, users[..i])) else None
    ensures Refreshed(mode, users[..i + 1], replies) == Refreshed(mode, users[..i], replies) + [Updated(mode, users, replies, i)]
    ensures Recorded(mode, users[..i + 1], replies) ==
      Recorded(mode, users[..i], replies) + (if Outcome(mode, users, replies, i).Some? then [Updated(mode, users, replies, i)] else [])
  {
    var prefix := users[..i + 1];
    assert prefix[..i] == users[..i] && prefix[i] == users[i];
    OutcomePrefix(mode, users, replies, i + 1, i);
  }

  /** The transport's next answer after `k` sends is the `k`-th answer. */
  lemma ConsumedStep(replies: seq<Option<int>>, k: nat)
    ensures NextReply(Consumed(replies, k)) == Reply(replies, k)
    ensures Later(Consumed(replies, k)) == Consumed(replies, k + 1)
  {
  }

  /**
   * The body of the loop for one member: delete and send, or edit in place,
   * or send. The answer is the new message's id when a send succeeded.
   */
  method ShowList(client: Client, mode: Mode, u: User, text: Text, keyboard: Keyboard) returns (sent: Option<int>)
    modifies client
    ensures client.trace == old(client.trace) + MemberEvents(mode, u, text, keyboard)
    ensures client.replies == if Sends(mode, u) then Later(old(client.replies)) else old(client.replies)
    ensures sent == if Sends(mode, u) then NextReply(old(client.replies)) else None
  {
    if mode == EditInPlace && HasShownList(u) {
      client.EditText(u.chatId, u.lastMessageId.value, text, keyboard);
      sent := None;
    } else {
      if HasShownList(u) {
        client.Delete(u.chatId, u.lastMessageId.value);
      }
      sent := client.Send(u.chatId, text, Some(keyboard));
    }
  }

  /**
   * The loop over the roster. A successful send's message id goes into the
   * member's copy and, for the handlers that persist only fresh sends, into
   * `recorded`.
   */
  method Broadcast(client: Client, mode: Mode, users: seq<User>, text: Text, keyboard: Keyboard)
    returns (refreshed: seq<User>, recorded: seq<User>)
    modifies client
    ensures client.trace == old(client.trace) + RoundEvents(mode, users, text, keyboard)
    ensures client.replies == Consumed(old(client.replies), SendCount(mode, users))
    ensures refreshed == Refreshed(mode, users, old(client.replies))
    ensures recorded == Recorded(mode, users, old(client.replies))
  {
    ghost var trace0 := client.trace;
    ghost var replies0 := client.replies;
    refreshed := [];
    recorded := [];
    for i := 0 to |users|
      invariant client.trace == trace0 + RoundEvents(mode, users[..i], text, keyboard)
      invariant client.replies == Consumed(replies0, SendCount(mode, users[..i]))
      invariant refreshed == Refreshed(mode, users[..i], replies0)
      invariant recorded == Recorded(mode, users[..i], replies0)
    {
      RoundStep(mode, users, replies0, text, keyboard, i);
      ConsumedStep(replies0, SendCount(mode, users[..i]));
      ConcatAssoc(trace0, RoundEvents(mode, users[..i], text, keyboard), MemberEvents(mode, users[i], text, keyboard));
      var sent := ShowList(client, mode, users[i], text, keyboard);
      assert sent == Outcome(mode, users, replies0, i);
      var v := if sent.Some? then users[i].(lastMessageId := sent) else users[i];
      assert v == Updated(mode, users, replies0, i);
      refreshed := refreshed + [v];
      if sent.Some? {
        recorded := recorded + [v];
      }
    }
    assert users[..|users|] == users;
  }

  // ---------------------------------------------------------------------------
  // What each member sees
  // ---------------------------------------------------------------------------

  /** The calls addressed to chat `c`, in order. */
  function EventsTo(events: seq<Event>, c: int): seq<Event> {
    if events == [] then []
    else (if events[0].Chat() == Some(c) then [events[0]] else []) + EventsTo(events[1..], c)
  }

  lemma {:induction false} EventsToConcat(a: seq<Event>, b: seq<Event>, c: int)
    ensures EventsTo(a + b, c) == EventsTo(a, c) + EventsTo(b, c)
    decreases |a|
  {
    if a == [] {
      assert a + b == b;
    } else {
      var ab := a + b;
      assert ab[0] == a[0];
      assert ab[1..] == a[1..] + b;
      EventsToConcat(a[1..], b, c);
      var head := if a[0].Chat() == Some(c) then [a[0]] else [];
      assert EventsTo(ab, c) == head + (EventsTo(a[1..], c) + EventsTo(b, c));
      assert EventsTo(a, c) == head + EventsTo(a[1..], c);
      assert head + (EventsTo(a[1..], c) + EventsTo(b, c)) == (head + EventsTo(a[1..], c)) + EventsTo(b, c);
    }
  }

  /** A member's calls are all addressed to that member's chat. */
  lemma MemberEventsTo(mode: Mode, u: User, text: Text, keyboard: Keyboard, c: int)
    ensures EventsTo(MemberEvents(mode, u, text, keyboard), c) ==
      if c == u.chatId then MemberEvents(mode, u, text, keyboard) else []
  {
    var es := MemberEvents(mode, u, text, keyboard);
    if |es| == 2 {
      assert es == [es[0]] + [es[1]];
      EventsToConcat([es[0]], [es[1]], c);
    }
  }

  /** A chat outside the roster receives nothing. */
  lemma {:induction false} NoEventsOutsideRoster(mode: Mode, users: seq<User>, text: Text, keyboard: Keyboard, c: int)
    requires forall j :: 0 <= j < |users| ==> users[j].chatId != c
    ensures EventsTo(RoundEvents(mode, users, text, keyboard), c) == []
    decreases |users|
  {
    if users != [] {
      var init := users[..|users| - 1];
      NoEventsOutsideRoster(mode, init, text, keyboard, c);
      EventsToConcat(RoundEvents(mode, init, text, keyboard), MemberEvents(mode, users[|users| - 1], text, keyboard), c);
      MemberEventsTo(mode, users[|users| - 1], text, keyboard, c);
    }
  }

  /**
   * With chat ids a key, the calls a member's chat receives in a round are
   * exactly that member's calls: with `Resend`, a delete when a list message
   * is on screen and then one send; with `EditInPlace`, one edit of that
   * message when it is on screen and one send otherwise.
   */
  lemma {:induction false} PerMemberEvents(mode: Mode, users: seq<User>, text: Text, keyboard: Keyboard, i: nat)
    requires UniqueChatIds(users) && i < |users|
    ensures EventsTo(RoundEvents(mode, users, text, keyboard), users[i].chatId) == MemberEvents(mode, users[i], text, keyboard)
    decreases |users|
  {
    var n := |users| - 1;
    var init := users[..n];
    var c := users[i].chatId;
    EventsToConcat(RoundEvents(mode, init, text, keyboard), MemberEvents(mode, users[n], text, keyboard), c);
    MemberEventsTo(mode, users[n], text, keyboard, c);
    if i == n {
      NoEventsOutsideRoster(mode, init, text, keyboard, c);
    } else {
      assert init[i] == users[i];
      PerMemberEvents(mode, init, text, keyboard, i);
    }
  }

  // ---------------------------------------------------------------------------
  // What is remembered
  // ---------------------------------------------------------------------------

  lemma {:induction false} RefreshedAt(mode: Mode, users: seq<User>, replies: seq<Option<int>>, i: nat)
    requires i < |users|
    ensures |Refreshed(mode, users, replies)| == |users|
    ensures Refreshed(mode, users, replies)[i] == Updated(mode, users, replies, i)
    decreases |users|
  {
    var n := |users| - 1;
    if i < n {
      RefreshedAt(mode, users[..n], replies, i);
      OutcomePrefix(mode, users, replies, n, i);
    } else if n > 0 {
      RefreshedAt(mode, users[..n], replies, n - 1);
    }
  }

  /**
   * The roster after the loop: only message ids change, and a member's id
   * changes exactly when a fresh send to it succeeded, to that message's id.
   */
  lemma RefreshedFacts(mode: Mode, users: seq<User>, replies: seq<Option<int>>, i: nat)
    requires i < |users|
    ensures |Refreshed(mode, users, replies)| == |users|
    ensures Refreshed(mode, users, replies)[i] == users[i].(lastMessageId := Refreshed(mode, users, replies)[i].lastMessageId)
    ensures Refreshed(mode, users, replies)[i].lastMessageId ==
      if Outcome(mode, users, replies, i).Some? then Outcome(mode, users, replies, i) else users[i].lastMessageId
    ensures !Sends(mode, users[i]) ==> Refreshed(mode, users, replies)[i] == users[i]
  {
    RefreshedAt(mode, users, replies, i);
  }

  /**
   * Persisting the refreshed roster stores, for each member, the id of the
   * message it was freshly sent, or keeps its old id when no send succeeded.
   */
  lemma {:induction false} RefreshedStamps(mode: Mode, users: seq<User>, replies: seq<Option<int>>, i: nat)
    requires UniqueChatIds(users) && i < |users|
    ensures FamilyRepository.LastStampFor(Refreshed(mode, users, replies), users[i].chatId) ==
      Some(if Outcome(mode, users, replies, i).Some? then Outcome(mode, users, replies, i) else users[i].lastMessageId)
    decreases |users|
  {
    var n := |users| - 1;
    var r := Refreshed(mode, users, replies);
    RefreshedAt(mode, users, replies, n);
    assert r[..n] == Refreshed(mode, users[..n], replies);
    if i < n {
      assert users[..n][i] == users[i];
      RefreshedStamps(mode, users[..n], replies, i);
      OutcomePrefix(mode, users, replies, n, i);
    }
  }

  /** A chat outside the roster gets no stored id from a round. */
  lemma {:induction false} RecordedOutsideRoster(mode: Mode, users: seq<User>, replies: seq<Option<int>>, c: int)
    requires forall j :: 0 <= j < |users| ==> users[j].chatId != c
    ensures FamilyRepository.LastStampFor(Recorded(mode, users, replies), c) == None
    ensures FamilyRepository.LastStampFor(Refreshed(mode, users, replies), c) == None
    decreases |users|
  {
    if users != [] {
      var n := |users| - 1;
      RecordedOutsideRoster(mode, users[..n], replies, c);
      var rec := Recorded(mode, users, replies);
      var ref := Refreshed(mode, users, replies);
      var oldRec := Recorded(mode, users[..n], replies);
      if Outcome(mode, users, replies, n).Some? {
        assert rec[..|rec| - 1] == oldRec;
      } else {
        assert rec == oldRec;
      }
      assert ref[..|ref| - 1] == Refreshed(mode, users[..n], replies);
    }
  }

  /**
   * Persisting only the recorded members stores a new id exactly for the
   * members whose fresh send succeeded; a member whose message was edited in
   * place, or whose send failed, keeps its stored id.
   */
  lemma {:induction false} RecordedStamps(mode: Mode, users: seq<User>, replies: seq<Option<int>>, i: nat)
    requires UniqueChatIds(users) && i < |users|
    ensures FamilyRepository.LastStampFor(Recorded(mode, users, replies), users[i].chatId) ==
      if Outcome(mode, users, replies, i).Some? then Some(Outcome(mode, users, replies, i)) else None
    decreases |users|
  {
    var n := |users| - 1;
    var init := users[..n];
    var rec := Recorded(mode, users, replies);
    var oldRec := Recorded(mode, init, replies);
    var c := users[i].chatId;
    if Outcome(mode, users, replies, n).Some? {
      assert rec[..|rec| - 1] == oldRec && rec[|rec| - 1] == Updated(mode, users, replies, n);
    } else {
      assert rec == oldRec;
    }
    if i == n {
      RecordedOutsideRoster(mode, init, replies, c);
    } else {
      assert init[i] == users[i];
      RecordedStamps(mode, init, replies, i);
      OutcomePrefix(mode, users, replies, n, i);
    }
  }

  /** With edits in place, a member with a list message on screen is never recorded. */
  lemma EditedNotRecorded(users: seq<User>, replies: seq<Option<int>>, i: nat)
    requires UniqueChatIds(users) && i < |users| && HasShownList(users[i])
    ensures FamilyRepository.LastStampFor(Recorded(EditInPlace, users, replies), users[i].chatId) == None
  {
    RecordedStamps(EditInPlace, users, replies, i);
  }
}
