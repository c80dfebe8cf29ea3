/** The conversation store: the list of conversations, newest first, and the
    conversation the chat window is showing. */
module Conversations {
  import opened Wrappers
  import opened Text
  import opened Lists
  import opened Display

  datatype Role = User | Assistant

  /** One transcript entry. `duration` (time to first token) is kept for
      assistant messages only; `tokens` may be back-filled later. */
  datatype Message = Message(
    role: Role, content: string, timestamp: nat, duration: Option<nat>, tokens: Option<nat>)

  /** `timestamp` is the time of the latest message (or of creation);
      `messageCount` counts exchanges; `lastTitleUpdate` is the last exchange
      count at which a title was requested. */
  datatype Conversation = Conversation(
    id: string,
    title: string,
    timestamp: nat,
    model: Option<string>,
    messages: seq<Message>,
    messageCount: nat,
    lastTitleUpdate: nat,
    isPinned: bool,
    manuallyRenamed: bool)

  /** The outcome of appending one message: the updated conversation and
      whether the title generator is started. */
  datatype Appended = Appended(conversation: Conversation, fireTitle: bool)

  predicate HasId(id: string, c: Conversation) {
    c.id == id
  }

  predicate UniqueIds(cs: seq<Conversation>) {
    forall i, j :: 0 <= i < j < |cs| ==> cs[i].id != cs[j].id
  }

  /** Newest first: the order `sort((a, b) => b.timestamp - a.timestamp)` produces. */
  predicate SortedByRecency(cs: seq<Conversation>) {
    forall i :: 0 < i < |cs| ==> cs[i - 1].timestamp >= cs[i].timestamp
  }

  /** The exchange count agrees with the messages, and no title was requested
      for a count not yet reached. */
  predicate CountsConsistent(c: Conversation) {
    c.messageCount == |c.messages| / 2 && c.lastTitleUpdate <= c.messageCount
  }

  function IndexOfId(cs: seq<Conversation>, id: string): (r: Option<nat>)
    ensures r.Some? ==> r.value < |cs| && cs[r.value].id == id
    ensures r.None? <==> forall j :: 0 <= j < |cs| ==> cs[j].id != id
  {
    FindIndex(cs, c => HasId(id, c))
  }

  /** With unique ids, the conversation found under an id is the one carrying it. */
  lemma FoundIsTheOne(cs: seq<Conversation>, c: Conversation)
    requires UniqueIds(cs) && c in cs
    ensures IndexOfId(cs, c.id).Some? && cs[IndexOfId(cs, c.id).value] == c
  {
  }

  /** `createNewConversation`'s record, numbered after the existing conversations. */
  function NewConversation(id: string, number: nat, now: nat, model: Option<string>): (c: Conversation)
    ensures c.id == id && c.timestamp == now && c.model == model && c.messages == []
    ensures CountsConsistent(c) && !c.isPinned && !c.manuallyRenamed
  {
    Conversation(id, "Conversation #" + NatToString(number), now, model, [], 0, 0, false, false)
  }

  /** The default title is `Conversation #` followed by the decimal number,
      which reads back as that number. The number is one more than the
      current count of conversations, so it can repeat after a deletion. */
  lemma NewConversationNumbered(id: string, number: nat, now: nat, model: Option<string>)
    ensures var t := NewConversation(id, number, now, model).title;
            && |t| > 14 && t[..14] == "Conversation #"
            && AllDigits(t[14..]) && ParseDigits(t[14..]) == number
  {
    var t := NewConversation(id, number, now, model).title;
    assert t[14..] == NatToString(number);
    ParseNatToString(number);
  }

  /** The message record `addMessageToConversation` builds. */
  function MakeMessage(role: Role, content: string, now: nat, duration: Option<nat>,
                       tokens: Option<nat>): (m: Message)
    ensures m.role == role && m.content == content && m.timestamp == now && m.tokens == tokens
    ensures m.duration.Some? <==> role == Assistant && duration.Some?
    ensures m.duration.Some? ==> m.duration == duration
  {
    Message(role, content, now, if role == Assistant then duration else None, tokens)
  }

  /** The in-place update of the current conversation in `addMessageToConversation`. */
  function AppendToConversation(c: Conversation, m: Message): Appended {
    var msgs := c.messages + [m];
    var count := |msgs| / 2;
    var fire := !c.manuallyRenamed && ShouldUpdateTitle(count) && count != c.lastTitleUpdate;
    Appended(c.(messages := msgs, timestamp := m.timestamp, messageCount := count,
                lastTitleUpdate := if fire then count else c.lastTitleUpdate),
             fire)
  }

  /** Appending adds exactly one message at the end, moves the conversation's
      time to the message's, recomputes the exchange count as half the number
      of messages, and leaves the id, title, model and flags alone. The title
      generator starts exactly when the conversation was not renamed by hand,
      the new count is a milestone, and that milestone was not already used;
      then the milestone is recorded. */
  lemma AppendSpec(c: Conversation, m: Message)
    ensures var a := AppendToConversation(c, m);
            var r := a.conversation;
            && r.messages == c.messages + [m] && r.timestamp == m.timestamp
            && r.messageCount == |r.messages| / 2
            && r.id == c.id && r.title == c.title && r.model == c.model
            && r.isPinned == c.isPinned && r.manuallyRenamed == c.manuallyRenamed
            && (a.fireTitle <==> !c.manuallyRenamed && ShouldUpdateTitle(r.messageCount) &&
                                 r.messageCount != c.lastTitleUpdate)
            && r.lastTitleUpdate == (if a.fireTitle then r.messageCount else c.lastTitleUpdate)
  {
  }

  /** Appending keeps the exchange count consistent. */
  lemma AppendKeepsCounts(c: Conversation, m: Message)
    requires CountsConsistent(c)
    ensures CountsConsistent(AppendToConversation(c, m).conversation)
  {
  }

  /** A milestone fires at most once: a second append that leaves the exchange
      count where the first one put it does not start the generator again. */
  lemma TitleFiresOncePerMilestone(c: Conversation, m1: Message, m2: Message)
    requires AppendToConversation(c, m1).fireTitle
    ensures var c1 := AppendToConversation(c, m1).conversation;
            var a2 := AppendToConversation(c1, m2);
            a2.conversation.messageCount == c1.messageCount ==> !a2.fireTitle
  {
  }

  /** A conversation renamed by hand never has its title regenerated. */
  lemma RenamedNeverFires(c: Conversation, m: Message)
    requires c.manuallyRenamed
    ensures !AppendToConversation(c, m).fireTitle
    ensures AppendToConversation(c, m).conversation.manuallyRenamed
  {
  }

  /** One step of a stable insertion sort, newest first: `c` goes before the
      first conversation that is not newer than it. */
  function InsertByRecency(c: Conversation, s: seq<Conversation>): (r: seq<Conversation>)
    ensures multiset(r) == multiset(s) + multiset{c}
    ensures |r| == |s| + 1 && (r[0] == c || (s != [] && r[0] == s[0]))
  {
    if s == [] || s[0].timestamp <= c.timestamp then [c] + s
    else
      assert s == [s[0]] + s[1..];
      [s[0]] + InsertByRecency(c, s[1..])
  }

  /** Every conversation of the result is `c` or one of `s`. */
  lemma InsertMembers(c: Conversation, s: seq<Conversation>)
    ensures forall k :: 0 <= k < |InsertByRecency(c, s)| ==> InsertByRecency(c, s)[k] == c || InsertByRecency(c, s)[k] in s
  {
    var r := InsertByRecency(c, s);
    forall k | 0 <= k < |r|
      ensures r[k] == c || r[k] in s
    {
      assert r[k] in multiset(r);
    }
  }

  lemma {:induction false} InsertKeepsOrder(c: Conversation, s: seq<Conversation>)
    requires SortedByRecency(s)
    ensures SortedByRecency(InsertByRecency(c, s))
  {
    if s == [] || s[0].timestamp <= c.timestamp {
    } else {
      InsertKeepsOrder(c, s[1..]);
      var t := InsertByRecency(c, s[1..]);
      assert InsertByRecency(c, s) == [s[0]] + t;
    }
  }

  lemma InsertKeepsUnique(c: Conversation, s: seq<Conversation>)
    requires UniqueIds(s) && forall k :: 0 <= k < |s| ==> s[k].id != c.id
    ensures UniqueIds(InsertByRecency(c, s))
  {
    var r := InsertByRecency(c, s);
    InsertMembers(c, s);
    assert c !in s;
    forall a, b | 0 <= a < b < |r|
      ensures r[a].id != r[b].id
    {
      if r[a] == r[b] {
        OccursTwice(r, a, b);
        if r[a] != c {
          var j :| 0 <= j < |s| && s[j] == r[a];
          MultiplicityOfUnique(s, j);
        }
      } else if r[a] != c && r[b] != c {
        var a' :| 0 <= a' < |s| && s[a'] == r[a];
        var b' :| 0 <= b' < |s| && s[b'] == r[b];
        assert a' != b';
      }
    }
  }

  /** A value at two positions occurs at least twice. */
  lemma OccursTwice<T>(r: seq<T>, a: nat, b: nat)
    requires a < b < |r| && r[a] == r[b]
    ensures multiset(r)[r[a]] >= 2
  {
    assert r == r[..b] + r[b..];
    assert r[a] in multiset(r[..b]);
    assert r[b] in multiset(r[b..]);
  }

  /** In a list with unique ids, each conversation occurs once. */
  lemma {:induction false} MultiplicityOfUnique(s: seq<Conversation>, i: nat)
    requires UniqueIds(s) && i < |s|
    ensures multiset(s)[s[i]] == 1
  {
    if i == 0 {
      assert s == [s[0]] + s[1..];
      assert s[0] !in s[1..];
      assert multiset(s[1..])[s[0]] == 0;
    } else {
      assert s == [s[0]] + s[1..];
      MultiplicityOfUnique(s[1..], i - 1);
      assert s[1..][i - 1] == s[i];
    }
  }

  /** `conversations.sort(...)` by timestamp, newest first, as a stable
      insertion sort. The result is a permutation of the input and sorted. */
  function SortByRecency(s: seq<Conversation>): (r: seq<Conversation>)
    ensures |r| == |s| && multiset(r) == multiset(s)
    ensures SortedByRecency(r)
  {
    if s == [] then []
    else
      assert s == [s[0]] + s[1..];
      InsertKeepsOrder(s[0], SortByRecency(s[1..]));
      InsertByRecency(s[0], SortByRecency(s[1..]))
  }

  /** Every conversation of the sorted list is one of the input. */
  lemma SortMembers(s: seq<Conversation>)
    ensures forall k :: 0 <= k < |SortByRecency(s)| ==> SortByRecency(s)[k] in s
  {
    var r := SortByRecency(s);
    forall k | 0 <= k < |r|
      ensures r[k] in s
    {
      assert r[k] in multiset(r);
    }
  }

  /** Sorting keeps the ids unique. */
  lemma {:induction false} SortKeepsUnique(s: seq<Conversation>)
    requires UniqueIds(s)
    ensures UniqueIds(SortByRecency(s))
  {
    if s != [] {
      assert s == [s[0]] + s[1..];
      SortKeepsUnique(s[1..]);
      var t := SortByRecency(s[1..]);
      SortMembers(s[1..]);
      forall k | 0 <= k < |t|
        ensures t[k].id != s[0].id
      {
        var j :| 0 <= j < |s[1..]| && s[1..][j] == t[k];
        assert s[j + 1] == t[k];
      }
      InsertKeepsUnique(s[0], t);
    }
  }

  /** A list that is already newest first is left as it is. */
  lemma {:induction false} SortOfSorted(s: seq<Conversation>)
    requires SortedByRecency(s)
    ensures SortByRecency(s) == s
  {
    if s != [] {
      SortOfSorted(s[1..]);
      assert SortByRecency(s[1..]) == s[1..];
    }
  }

  /** Removing one conversation keeps the list newest first and the ids unique. */
  lemma RemoveAtKeepsOrder(cs: seq<Conversation>, i: nat)
    requires i < |cs| && SortedByRecency(cs) && UniqueIds(cs)
    ensures SortedByRecency(RemoveAt(cs, i)) && UniqueIds(RemoveAt(cs, i))
  {
    var r := RemoveAt(cs, i);
    forall a | 0 < a < |r|
      ensures r[a - 1].timestamp >= r[a].timestamp
    {
      if a < i {
        assert r[a - 1] == cs[a - 1] && r[a] == cs[a];
      } else if a == i {
        assert r[a - 1] == cs[i - 1] && r[a] == cs[i + 1];
        assert cs[i - 1].timestamp >= cs[i].timestamp;
      } else {
        assert r[a - 1] == cs[a] && r[a] == cs[a + 1];
      }
    }
    forall a, b | 0 <= a < b < |r|
      ensures r[a].id != r[b].id
    {
      var a' := if a < i then a else a + 1;
      var b' := if b < i then b else b + 1;
      assert r[a] == cs[a'] && r[b] == cs[b'];
    }
  }

  /** Replacing one conversation by an updated one with the same id and
      re-sorting keeps the store's invariants, and the updated conversation is
      found under its id. */
  lemma ReplaceAndSort(cs: seq<Conversation>, i: nat, c: Conversation)
    requires UniqueIds(cs) && i < |cs| && c.id == cs[i].id && CountsConsistent(c)
    requires forall k :: 0 <= k < |cs| ==> CountsConsistent(cs[k])
    ensures var r := SortByRecency(cs[i := c]);
            && UniqueIds(r) && SortedByRecency(r)
            && (forall k :: 0 <= k < |r| ==> CountsConsistent(r[k]))
            && IndexOfId(r, c.id).Some? && r[IndexOfId(r, c.id).value] == c
  {
    var updated := cs[i := c];
    ReplaceKeepsUnique(cs, i, c);
    SortKeepsUnique(updated);
    var r := SortByRecency(updated);
    SortMembers(updated);
    forall k | 0 <= k < |r|
      ensures CountsConsistent(r[k])
    {
      var j :| 0 <= j < |updated| && updated[j] == r[k];
    }
    assert c in multiset(updated);
    FoundIsTheOne(r, c);
  }

  /** Editing one conversation in place without touching its id, time or
      messages keeps the store's invariants, and every id is found where it
      was before. */
  lemma ReplaceInPlace(cs: seq<Conversation>, i: nat, c: Conversation)
    requires UniqueIds(cs) && SortedByRecency(cs) && i < |cs|
    requires forall k :: 0 <= k < |cs| ==> CountsConsistent(cs[k])
    requires c.id == cs[i].id && c.timestamp == cs[i].timestamp && CountsConsistent(c)
    ensures var u := cs[i := c];
            && UniqueIds(u) && SortedByRecency(u)
            && (forall k :: 0 <= k < |u| ==> CountsConsistent(u[k]))
            && forall id :: IndexOfId(u, id) == IndexOfId(cs, id)
  {
    var u := cs[i := c];
    ReplaceKeepsUnique(cs, i, c);
    assert forall k :: 0 <= k < |u| ==> u[k].id == cs[k].id && u[k].timestamp == cs[k].timestamp;
    forall id
      ensures IndexOfId(u, id) == IndexOfId(cs, id)
    {
      var f := IndexOfId(cs, id);
      if f.Some? {
        assert u[f.value].id == id;
      }
    }
  }

  lemma ReplaceKeepsUnique(cs: seq<Conversation>, i: nat, c: Conversation)
    requires UniqueIds(cs) && i < |cs| && c.id == cs[i].id
    ensures UniqueIds(cs[i := c])
  {
    var u := cs[i := c];
    forall a, b | 0 <= a < b < |u|
      ensures u[a].id != u[b].id
    {
      assert u[a].id == cs[a].id && u[b].id == cs[b].id;
    }
  }

  /** The store's state: the list, newest first, and the id of the current
      conversation. */
  datatype StoreState = StoreState(conversations: seq<Conversation>, current: Option<string>)

  /** The state after adding a message, and whether a title is requested. */
  datatype Added = Added(state: StoreState, fireTitle: bool)

  /** The list invariants: unique ids, newest first, consistent counters. */
  ghost predicate ValidList(cs: seq<Conversation>) {
    && UniqueIds(cs)
    && SortedByRecency(cs)
    && (forall k :: 0 <= k < |cs| ==> CountsConsistent(cs[k]))
  }

  ghost predicate ValidStore(st: StoreState) {
    ValidList(st.conversations) &&
    (st.current.Some? ==> IndexOfId(st.conversations, st.current.value).Some?)
  }

  /** The messages of the current conversation; none when there is none. */
  function CurrentOf(st: StoreState): seq<Message> {
    if st.current.None? then []
    else match IndexOfId(st.conversations, st.current.value)
      case None => []
      case Some(i) => st.conversations[i].messages
  }

  /** The state after `createNewConversation`: a new conversation at the front, current. */
  function Created(st: StoreState, newId: string, now: nat, model: Option<string>): StoreState {
    StoreState([NewConversation(newId, |st.conversations| + 1, now, model)] + st.conversations, Some(newId))
  }

  /** The state in which a message is added: a conversation is created only
      when there is none. */
  function WithCurrent(st: StoreState, newId: string, now: nat, model: Option<string>): (r: StoreState)
    ensures r.current.Some?
  {
    if st.current.Some? then st else Created(st, newId, now, model)
  }

  /** The state after `addMessageToConversation`. */
  function AddMessageOutcome(st: StoreState, m: Message, newId: string, model: Option<string>): Added {
    var base := WithCurrent(st, newId, m.timestamp, model);
    match IndexOfId(base.conversations, base.current.value)
    case None => Added(base, false)
    case Some(i) =>
      var a := AppendToConversation(base.conversations[i], m);
      Added(StoreState(SortByRecency(base.conversations[i := a.conversation]), base.current), a.fireTitle)
  }

  /** The state after the prompt-token back-fill of a finished stream. */
  function BackfillOutcome(st: StoreState, promptTokens: nat): StoreState {
    if promptTokens == 0 || st.current.None? then st
    else match IndexOfId(st.conversations, st.current.value)
      case None => st
      case Some(i) =>
        var msgs := st.conversations[i].messages;
        if msgs != [] && msgs[|msgs| - 1].role == User then
          var last := msgs[|msgs| - 1].(tokens := Some(promptTokens));
          StoreState(st.conversations[i := st.conversations[i].(messages := msgs[|msgs| - 1 := last])], st.current)
        else st
  }

  /** Creating a conversation with a fresh id and a clock that is not behind any
      stored conversation keeps the store valid; the new one is current and empty. */
  lemma CreateSpec(st: StoreState, newId: string, now: nat, model: Option<string>)
    requires ValidStore(st)
    requires IndexOfId(st.conversations, newId) == None
    requires forall k :: 0 <= k < |st.conversations| ==> st.conversations[k].timestamp <= now
    ensures var r := Created(st, newId, now, model);
            ValidStore(r) && r.current == Some(newId) && CurrentOf(r) == [] &&
            |r.conversations| == |st.conversations| + 1
  {
    var r := Created(st, newId, now, model);
    var cs := r.conversations;
    assert IndexOfId(cs, newId) == Some(0);
    assert forall k :: 0 < k < |cs| ==> cs[k] == st.conversations[k - 1];
  }

  /** Appending to the conversation at `i` and re-sorting keeps the list
      invariants and its length, the conversation is found under its id with
      exactly that message added, and every other conversation is still there. */
  lemma AppendAndSort(cs: seq<Conversation>, i: nat, m: Message)
    requires ValidList(cs) && i < |cs|
    ensures var r := SortByRecency(cs[i := AppendToConversation(cs[i], m).conversation]);
            && ValidList(r) && |r| == |cs|
            && IndexOfId(r, cs[i].id).Some?
            && r[IndexOfId(r, cs[i].id).value].messages == cs[i].messages + [m]
            && forall c :: c in cs && c.id != cs[i].id ==> c in r
  {
    var a := AppendToConversation(cs[i], m);
    AppendKeepsCounts(cs[i], m);
    ReplaceAndSort(cs, i, a.conversation);
    var updated := cs[i := a.conversation];
    var r := SortByRecency(updated);
    forall c | c in cs && c.id != cs[i].id
      ensures c in r
    {
      var j :| 0 <= j < |cs| && cs[j] == c;
      assert updated[j] == c;
      assert c in multiset(updated);
    }
  }

  /** Adding a message keeps the store valid, makes a conversation current
      (a new one only when there was none), appends exactly that message to
      the current conversation, adds a conversation only when it created one,
      and keeps every other conversation as it was. */
  lemma AddMessageSpec(st: StoreState, m: Message, newId: string, model: Option<string>)
    requires ValidStore(st)
    requires st.current.None? ==> IndexOfId(st.conversations, newId) == None
    requires st.current.None? ==> forall k :: 0 <= k < |st.conversations| ==> st.conversations[k].timestamp <= m.timestamp
    ensures var r := AddMessageOutcome(st, m, newId, model).state;
            && ValidStore(r)
            && r.current == (if st.current.None? then Some(newId) else st.current)
            && CurrentOf(r) == CurrentOf(st) + [m]
            && |r.conversations| == |st.conversations| + (if st.current.None? then 1 else 0)
            && forall c :: c in st.conversations && c.id != r.current.value ==> c in r.conversations
  {
    var base := WithCurrent(st, newId, m.timestamp, model);
    if st.current.None? {
      CreateSpec(st, newId, m.timestamp, model);
    }
    assert ValidStore(base) && CurrentOf(base) == CurrentOf(st);
    var i := IndexOfId(base.conversations, base.current.value).value;
    AppendAndSort(base.conversations, i, m);
    assert forall c :: c in st.conversations ==> c in base.conversations;
  }

  /** The back-fill keeps the store valid and the current conversation, and
      writes the prompt tokens into the current conversation's last message
      exactly when tokens were reported and that message is the user's. */
  lemma BackfillSpec(st: StoreState, promptTokens: nat)
    requires ValidStore(st)
    ensures var r := BackfillOutcome(st, promptTokens);
            var msgs := CurrentOf(st);
            && ValidStore(r) && r.current == st.current
            && CurrentOf(r) == (if promptTokens > 0 && msgs != [] && msgs[|msgs| - 1].role == User
                                then msgs[..|msgs| - 1] + [msgs[|msgs| - 1].(tokens := Some(promptTokens))]
                                else msgs)
  {
    if promptTokens > 0 && st.current.Some? {
      var i := IndexOfId(st.conversations, st.current.value).value;
      var msgs := st.conversations[i].messages;
      if msgs != [] && msgs[|msgs| - 1].role == User {
        var last := msgs[|msgs| - 1].(tokens := Some(promptTokens));
        assert msgs[|msgs| - 1 := last] == msgs[..|msgs| - 1] + [last];
        ReplaceInPlace(st.conversations, i, st.conversations[i].(messages := msgs[|msgs| - 1 := last]));
      }
    }
  }

  /** The back-fill changes nothing but messages, and only those of the
      current conversation. */
  lemma BackfillTouchesOnlyCurrent(st: StoreState, promptTokens: nat)
    requires ValidStore(st)
    ensures var r := BackfillOutcome(st, promptTokens).conversations;
            && |r| == |st.conversations|
            && (forall k :: 0 <= k < |r| && (st.current.None? || st.conversations[k].id != st.current.value) ==>
                  r[k] == st.conversations[k])
            && (forall k :: 0 <= k < |r| ==> r[k] == st.conversations[k].(messages := r[k].messages))
  {
  }

  class ConversationStore {
    var conversations: seq<Conversation>
    /** The id of `currentConversation`, which is always one of `conversations`. */
    var current: Option<string>

    function State(): StoreState
      reads this
    {
      StoreState(conversations, current)
    }

    ghost predicate Valid()
      reads this
    {
      ValidStore(State())
    }

    constructor ()
      ensures Valid() && conversations == [] && current == None
    {
      conversations, current := [], None;
    }

    /** The messages of the current conversation; none when there is none. */
    function CurrentMessages(): seq<Message>
      reads this
    {
      CurrentOf(State())
    }

    /** `createNewConversation`: a fresh conversation goes to the front and
        becomes current. `newId` is the generated id, `now` the clock, which
        does not run behind any stored conversation. */
    method CreateNewConversation(newId: string, now: nat, model: Option<string>)
      requires Valid()
      requires IndexOfId(conversations, newId) == None
      requires forall k :: 0 <= k < |conversations| ==> conversations[k].timestamp <= now
      modifies this
      ensures Valid()
      ensures conversations == [NewConversation(newId, |old(conversations)| + 1, now, model)] + old(conversations)
      ensures current == Some(newId) && CurrentMessages() == []
    {
      CreateSpec(State(), newId, now, model);
      var c := NewConversation(newId, |conversations| + 1, now, model);
      conversations := [c] + conversations;
      current := Some(newId);
    }

    /** `addMessageToConversation`: creates a conversation when there is none,
        appends exactly one message to the current conversation, re-sorts
        the list newest first, and says whether the title generator starts. */
    method AddMessageToConversation(role: Role, content: string, duration: Option<nat>,
                                    tokens: Option<nat>, now: nat, newId: string,
                                    model: Option<string>) returns (fireTitle: bool)
      requires Valid()
      requires current.None? ==> IndexOfId(conversations, newId) == None
      requires current.None? ==> forall k :: 0 <= k < |conversations| ==> conversations[k].timestamp <= now
      modifies this
      ensures Valid()
      ensures current == if old(current).None? then Some(newId) else old(current)
      ensures CurrentMessages() == old(CurrentMessages()) + [MakeMessage(role, content, now, duration, tokens)]
      ensures |conversations| == |old(conversations)| + (if old(current).None? then 1 else 0)
      ensures Added(State(), fireTitle) ==
                AddMessageOutcome(old(State()), MakeMessage(role, content, now, duration, tokens), newId, model)
    {
      var message := MakeMessage(role, content, now, duration, tokens);
      ghost var before := State();
      if current.None? {
        CreateNewConversation(newId, now, model);
      }
      assert State() == WithCurrent(before, newId, message.timestamp, model);
      var i := IndexOfId(conversations, current.value).value;
      var a := AppendToConversation(conversations[i], message);
      conversations := SortByRecency(conversations[i := a.conversation]);
      fireTitle := a.fireTitle;
      assert Added(State(), fireTitle) == AddMessageOutcome(before, message, newId, model);
      AddMessageSpec(before, message, newId, model);
    }

    /** `togglePinConversation`: flips the pin of the conversation with that id;
        an unknown id changes nothing. The order is not touched. */
    method TogglePinConversation(id: string)
      requires Valid()
      modifies this
      ensures Valid() && current == old(current)
      ensures IndexOfId(old(conversations), id).None? ==> conversations == old(conversations)
      ensures IndexOfId(old(conversations), id).Some? ==>
                var i := IndexOfId(old(conversations), id).value;
                conversations == old(conversations)[i := old(conversations)[i].(isPinned := !old(conversations)[i].isPinned)]
    {
      var found := IndexOfId(conversations, id);
      if found.None? {
        return;
      }
      var i := found.value;
      ReplaceInPlace(conversations, i, conversations[i].(isPinned := !conversations[i].isPinned));
      conversations := conversations[i := conversations[i].(isPinned := !conversations[i].isPinned)];
    }

    /** `deleteConversation`, confirmed: an unknown id changes nothing; otherwise
        exactly that conversation is removed, and if it was current there is no
        current conversation any more. */
    method DeleteConversation(id: string)
      requires Valid()
      modifies this
      ensures Valid()
      ensures IndexOfId(old(conversations), id).None? ==>
                conversations == old(conversations) && current == old(current)
      ensures IndexOfId(old(conversations), id).Some? ==>
                && conversations == RemoveAt(old(conversations), IndexOfId(old(conversations), id).value)
                && IndexOfId(conversations, id).None?
                && current == (if old(current) == Some(id) then None else old(current))
    {
      var found := IndexOfId(conversations, id);
      if found.None? {
        return;
      }
      var i := found.value;
      if current == Some(id) {
        current := None;
      }
      FilterSingleOut(conversations, c => !HasId(id, c), i);
      RemoveAtKeepsOrder(conversations, i);
      conversations := Filter(conversations, c => !HasId(id, c));
      if current.Some? {
        var j := IndexOfId(old(conversations), current.value).value;
        assert old(conversations)[j] in conversations;
      }
    }

    /** The rename dialog's Save: a blank title changes nothing; otherwise the
        conversation takes the trimmed title and is marked as renamed by hand.
        An unknown id changes nothing. */
    method RenameConversation(id: string, newTitle: string)
      requires Valid()
      modifies this
      ensures Valid() && current == old(current)
      ensures IndexOfId(old(conversations), id).None? || IsBlank(newTitle) ==>
                conversations == old(conversations)
      ensures IndexOfId(old(conversations), id).Some? && !IsBlank(newTitle) ==>
                var i := IndexOfId(old(conversations), id).value;
                conversations == old(conversations)[i := old(conversations)[i].(title := Trim(newTitle), manuallyRenamed := true)]
    {
      var found := IndexOfId(conversations, id);
      if found.None? {
        return;
      }
      var i := found.value;
      var t := Trim(newTitle);
      if t != [] {
        ReplaceInPlace(conversations, i, conversations[i].(title := t, manuallyRenamed := true));
        conversations := conversations[i := conversations[i].(title := t, manuallyRenamed := true)];
      }
    }

    /** The back-fill after a finished stream: when prompt tokens were reported
        and the current conversation ends with a user message, that message
        gets the token count. Nothing else changes. */
    method BackfillPromptTokens(promptTokens: nat)
      requires Valid()
      modifies this
      ensures Valid() && current == old(current)
      ensures State() == BackfillOutcome(old(State()), promptTokens)
      ensures var msgs := old(CurrentMessages());
              CurrentMessages() ==
                if promptTokens > 0 && msgs != [] && msgs[|msgs| - 1].role == User
                then msgs[..|msgs| - 1] + [msgs[|msgs| - 1].(tokens := Some(promptTokens))]
                else msgs
    {
      BackfillSpec(State(), promptTokens);
      if promptTokens == 0 || current.None? {
        return;
      }
      var i := IndexOfId(conversations, current.value).value;
      var msgs := conversations[i].messages;
      if msgs != [] && msgs[|msgs| - 1].role == User {
        var last := msgs[|msgs| - 1].(tokens := Some(promptTokens));
        conversations := conversations[i := conversations[i].(messages := msgs[|msgs| - 1 := last])];
      }
    }
  }
}
