/** The poll digest state machine: per chat, the cache holds the day's
    accumulated digest, the id of the pinned digest message and the date it
    was sent; every poll either edits today's pinned message or sends and
    pins a new one. */
module Poll {
  import opened Wrappers
  import opened JsString
  import opened PollDigest

  type ChatId = int

  /** Calendar days, counted from 1 January 1970 (the day of `new Date(null)`). */
  type Day = int
  const EpochDay: Day := 0

  /** The poll in the incoming message, with the id of that message. */
  datatype PollMessage = PollMessage(kind: PollType, id: nat, question: string)

  /** What the handler learns from outside: the current day, its formatted
      date header, the chat's username (`getChat`), and the id the platform
      gives a newly sent message. */
  datatype Env = Env(today: Day, dateHeader: string, username: string, newMessageId: nat)

  /** The platform calls the handler makes. */
  datatype Action =
    | EditText(chat: ChatId, messageId: int, html: string)
    | SendMessage(chat: ChatId, html: string, messageId: int)
    | PinMessage(chat: ChatId, messageId: int)

  /** The three cache values of one chat as `MGET` returns them. The id is
      kept as the string `String(message_id)` that was stored. */
  datatype Snapshot = Snapshot(content: Option<Digest>, messageId: Option<string>, date: Option<Day>)

  /** What the handler itself ever writes: the id as `String(id)`, and
      entries whose text is a question's first line. */
  predicate ValidSnapshot(s: Snapshot)
  {
    && (s.messageId.Some? ==> IsDecimal(s.messageId.value))
    && (s.content.Some? ==> ValidDigest(s.content.value))
  }

  predicate ValidDigest(d: Digest)
  {
    EntriesSingleLine(d.survey) && EntriesSingleLine(d.quiz)
  }

  /** `new Date(lastPollDate)`: an absent date reads as the epoch. */
  function DayOf(date: Option<Day>): Day
  {
    if date.Some? then date.value else EpochDay
  }

  /** `!lastMessageContent || !compare(new Date(lastPollDate), 'day')`. */
  predicate StartsFresh(s: Snapshot, today: Day)
  {
    s.content.None? || DayOf(s.date) != today
  }

  /** `lastPollDate && compare(new Date(lastPollDate), 'day')`. */
  predicate EditsPinned(s: Snapshot, today: Day)
  {
    s.date.Some? && s.date.value == today
  }

  /** The two tests differ only where the stored content is missing: an
      edited digest is always rebuilt from the stored one when there is one,
      and a kept digest is edited unless there is no stored date at all. */
  lemma FreshVersusPinned(s: Snapshot, today: Day)
    ensures EditsPinned(s, today) ==> (StartsFresh(s, today) <==> s.content.None?)
    ensures !StartsFresh(s, today) && s.date.Some? ==> EditsPinned(s, today)
    ensures s.date.Some? && s.date.value != today ==> StartsFresh(s, today) && !EditsPinned(s, today)
  {
  }

  /** `Number(lastPinnedMessage)`; `Number(null)` is 0. */
  function StoredId(id: Option<string>): int
    requires id.Some? ==> IsDecimal(id.value)
  {
    if id.Some? then ParseDecimal(id.value) else 0
  }

  function EntryOf(m: PollMessage): (e: Entry)
    ensures SingleLine(e.text)
  {
    Entry(m.id, FirstLine(m.question))
  }

  /** The accumulator after one poll: reset on a new day (or with no stored
      digest), then the poll's entry goes to the end of the list its type
      names; the other list is never touched. */
  function NextDigest(s: Snapshot, today: Day, m: PollMessage): (d: Digest)
    ensures ValidSnapshot(s) ==> ValidDigest(d)
    ensures var base := if StartsFresh(s, today) then Digest([], []) else s.content.value;
      && d.survey == base.survey + (if m.kind == Regular then [EntryOf(m)] else [])
      && d.quiz == base.quiz + (if m.kind == Quiz then [EntryOf(m)] else [])
  {
    var base := if StartsFresh(s, today) then Digest([], []) else s.content.value;
    match m.kind
    case Regular => base.(survey := base.survey + [EntryOf(m)])
    case Quiz => base.(quiz := base.quiz + [EntryOf(m)])
    case OtherType => base
  }

  /** The new cache values of the chat and the calls made for one poll. */
  datatype StepResult = StepResult(next: Snapshot, actions: seq<Action>)

  /** One poll, as a function of the chat's cache values: on a day whose
      digest is pinned, edit it and rewrite only the content; otherwise send a
      new digest, store its id, the content and today's date, and pin it. */
  function Step(chat: ChatId, s: Snapshot, m: PollMessage, env: Env): (r: StepResult)
    requires ValidSnapshot(s)
    ensures ValidSnapshot(r.next)
    ensures r.next.content == Some(NextDigest(s, env.today, m))
    ensures |r.actions| == (if EditsPinned(s, env.today) then 1 else 2)
  {
    var digest := NextDigest(s, env.today, m);
    var html := Render(env.dateHeader, ChatLink(env.username), digest);
    if EditsPinned(s, env.today) then
      StepResult(s.(content := Some(digest)), [EditText(chat, StoredId(s.messageId), html)])
    else
      StepResult(
        Snapshot(Some(digest), Some(DecimalString(env.newMessageId)), Some(env.today)),
        [SendMessage(chat, html, env.newMessageId), PinMessage(chat, env.newMessageId)])
  }

  /** The digest message the handler renders after poll `m`. */
  function DigestHtml(s: Snapshot, m: PollMessage, env: Env): string
  {
    Render(env.dateHeader, ChatLink(env.username), NextDigest(s, env.today, m))
  }

  /** Without today's digest pinned, the rendered digest is sent as a new
      message; its id, the digest and today's date are stored; then it is
      pinned. */
  lemma NewMessagePath(chat: ChatId, s: Snapshot, m: PollMessage, env: Env)
    requires ValidSnapshot(s) && !EditsPinned(s, env.today)
    ensures var r := Step(chat, s, m, env);
      && r.next == Snapshot(Some(NextDigest(s, env.today, m)), Some(DecimalString(env.newMessageId)), Some(env.today))
      && r.actions == [SendMessage(chat, DigestHtml(s, m, env), env.newMessageId), PinMessage(chat, env.newMessageId)]
      && StoredId(r.next.messageId) == env.newMessageId
  {
    ParseDecimalString(env.newMessageId);
  }

  /** A quiz on any day other than the stored one starts a fresh digest
      holding only that quiz, which is sent and pinned as a new message. */
  lemma NewDayQuiz(chat: ChatId, s: Snapshot, m: PollMessage, env: Env)
    requires ValidSnapshot(s)
    requires s.date.Some? && s.date.value != env.today && m.kind == Quiz
    ensures var r := Step(chat, s, m, env);
      && r.next == Snapshot(Some(Digest([], [EntryOf(m)])), Some(DecimalString(env.newMessageId)), Some(env.today))
      && r.actions == [SendMessage(chat, Render(env.dateHeader, ChatLink(env.username), Digest([], [EntryOf(m)])), env.newMessageId),
                       PinMessage(chat, env.newMessageId)]
  {
    assert StartsFresh(s, env.today);
    assert NextDigest(s, env.today, m).quiz == [] + [EntryOf(m)] == [EntryOf(m)];
  }

  /** With today's digest pinned, a poll edits that message in place with the
      rendered digest: the stored id and date stay, only the content changes,
      nothing is sent or pinned. */
  lemma SameDayEdits(chat: ChatId, s: Snapshot, m: PollMessage, env: Env)
    requires ValidSnapshot(s)
    requires s.date == Some(env.today)
    ensures var r := Step(chat, s, m, env);
      && r.next.messageId == s.messageId && r.next.date == s.date
      && r.next.content == Some(NextDigest(s, env.today, m))
      && r.actions == [EditText(chat, StoredId(s.messageId), DigestHtml(s, m, env))]
  {
  }

  /** The html of a call the handler makes for a poll. */
  function HtmlOf(a: Action): Option<string>
  {
    match a
    case EditText(_, _, html) => Some(html)
    case SendMessage(_, html, _) => Some(html)
    case PinMessage(_, _) => None
  }

  /** Whatever a poll sends or edits is the digest laid out line by line: the
      date header, an empty line, "Quiz", the quiz links, an empty line,
      "Survey", the survey links and a final empty line. Stored entries are
      single lines, so this holds for digests rebuilt from the cache too. */
  lemma StepMessageLines(chat: ChatId, s: Snapshot, m: PollMessage, env: Env)
    requires ValidSnapshot(s)
    requires SingleLine(env.dateHeader) && SingleLine(env.username)
    ensures var d := NextDigest(s, env.today, m);
      forall a :: a in Step(chat, s, m, env).actions && HtmlOf(a).Some? ==>
        Split(HtmlOf(a).value, '\n') ==
          ["<strong>" + env.dateHeader + "</strong>", "", "Quiz"] + (Lines(Links(ChatLink(env.username), d.quiz))
          + (["", "Survey"] + (Lines(Links(ChatLink(env.username), d.survey)) + [""])))
  {
    var d := NextDigest(s, env.today, m);
    assert SingleLine(ChatLink(env.username));
    RenderLines(env.dateHeader, ChatLink(env.username), d);
  }

  /** A poll arriving with what the handler learns about it. */
  datatype Arrival = Arrival(message: PollMessage, env: Env)

  /** A sequence of polls in one chat, one after the other. */
  function Run(chat: ChatId, s: Snapshot, arrivals: seq<Arrival>): (r: StepResult)
    requires ValidSnapshot(s)
    ensures ValidSnapshot(r.next)
    decreases |arrivals|
  {
    if arrivals == [] then StepResult(s, [])
    else
      var first := Step(chat, s, arrivals[0].message, arrivals[0].env);
      var rest := Run(chat, first.next, arrivals[1..]);
      StepResult(rest.next, first.actions + rest.actions)
  }

  /** The entries of the polls of one type, in arrival order. */
  function EntriesOf(arrivals: seq<Arrival>, kind: PollType): seq<Entry>
  {
    if arrivals == [] then []
    else
      (if arrivals[0].message.kind == kind then [EntryOf(arrivals[0].message)] else [])
      + EntriesOf(arrivals[1..], kind)
  }

  /** Number of pin calls. */
  function Pins(actions: seq<Action>): nat
  {
    if actions == [] then 0 else (if actions[0].PinMessage? then 1 else 0) + Pins(actions[1..])
  }

  lemma {:induction false} PinsAppend(a: seq<Action>, b: seq<Action>)
    ensures Pins(a + b) == Pins(a) + Pins(b)
  {
    if a == [] {
      assert a + b == b;
    } else {
      assert (a + b)[1..] == a[1..] + b;
      PinsAppend(a[1..], b);
    }
  }

  predicate AllOnDay(arrivals: seq<Arrival>, day: Day)
  {
    forall i :: 0 <= i < |arrivals| ==> arrivals[i].env.today == day
  }

  /** Regrouping a concatenation; stated apart so that the inductive step of
      `SameDayDigest` does not have to find it among the unfolded runs. */
  lemma AppendAssoc(a: seq<Entry>, b: seq<Entry>, c: seq<Entry>)
    ensures (a + b) + c == a + (b + c)
  {
  }

  /** The digest of the day: what was kept from the stored state before the
      first poll of the run. */
  function DayBase(s: Snapshot, day: Day): Digest
  {
    if StartsFresh(s, day) then Digest([], []) else s.content.value
  }

  /** Polls arriving on one day aggregate: the stored digest after them holds
      the day's earlier entries followed by every new regular poll under
      `survey` and every new quiz under `quiz`, in arrival order, and the stored
      date is that day. */
  lemma {:induction false} SameDayDigest(chat: ChatId, s: Snapshot, arrivals: seq<Arrival>, day: Day)
    requires ValidSnapshot(s)
    requires arrivals != [] && AllOnDay(arrivals, day)
    ensures Run(chat, s, arrivals).next.content ==
      Some(Digest(DayBase(s, day).survey + EntriesOf(arrivals, Regular),
                  DayBase(s, day).quiz + EntriesOf(arrivals, Quiz)))
    ensures Run(chat, s, arrivals).next.date == Some(day)
    decreases |arrivals|
  {
    var first := Step(chat, s, arrivals[0].message, arrivals[0].env);
    var rest := arrivals[1..];
    assert arrivals[0].env.today == day;
    var m := arrivals[0].message;
    if rest == [] {
      assert Run(chat, s, arrivals).next == first.next;
      assert EntriesOf(arrivals, Regular) == if m.kind == Regular then [EntryOf(m)] else [];
      assert EntriesOf(arrivals, Quiz) == if m.kind == Quiz then [EntryOf(m)] else [];
    } else {
      assert AllOnDay(rest, day);
      SameDayDigest(chat, first.next, rest, day);
      assert !StartsFresh(first.next, day);
      var b := DayBase(s, day);
      var b1 := DayBase(first.next, day);
      var hs := if m.kind == Regular then [EntryOf(m)] else [];
      var hq := if m.kind == Quiz then [EntryOf(m)] else [];
      assert b1.survey == b.survey + hs;
      assert b1.quiz == b.quiz + hq;
      assert EntriesOf(arrivals, Regular) == hs + EntriesOf(rest, Regular);
      assert EntriesOf(arrivals, Quiz) == hq + EntriesOf(rest, Quiz);
      AppendAssoc(b.survey, hs, EntriesOf(rest, Regular));
      AppendAssoc(b.quiz, hq, EntriesOf(rest, Quiz));
    }
  }

  /** The message id a day's digest lives under: the stored one if today's
      digest was already pinned, else the one sent for the first poll. */
  function DayMessage(s: Snapshot, first: Env, day: Day): int
    requires ValidSnapshot(s)
  {
    if EditsPinned(s, day) then StoredId(s.messageId) else first.newMessageId
  }

  /** One digest message per day: among polls arriving on one day, at most the
      first sends and pins a message, only when no digest of that day was
      pinned before, and every edit targets that day's message. */
  lemma {:induction false} OneMessagePerDay(chat: ChatId, s: Snapshot, arrivals: seq<Arrival>, day: Day)
    requires ValidSnapshot(s)
    requires arrivals != [] && AllOnDay(arrivals, day)
    ensures Pins(Run(chat, s, arrivals).actions) == if EditsPinned(s, day) then 0 else 1
    ensures forall a :: a in Run(chat, s, arrivals).actions && a.EditText? ==>
      a.messageId == DayMessage(s, arrivals[0].env, day)
    ensures StoredId(Run(chat, s, arrivals).next.messageId) == DayMessage(s, arrivals[0].env, day)
    decreases |arrivals|
  {
    var first := Step(chat, s, arrivals[0].message, arrivals[0].env);
    var rest := arrivals[1..];
    var r := Run(chat, first.next, rest);
    assert arrivals[0].env.today == day;
    if !EditsPinned(s, day) {
      ParseDecimalString(arrivals[0].env.newMessageId);
    }
    assert StoredId(first.next.messageId) == DayMessage(s, arrivals[0].env, day);
    if EditsPinned(s, day) {
      assert Pins(first.actions[1..]) == 0;
    } else {
      assert first.actions[1..][1..] == [];
      assert Pins(first.actions[1..]) == 1;
    }
    assert Pins(first.actions) == if EditsPinned(s, day) then 0 else 1;
    if rest == [] {
      assert r.actions == [];
      assert first.actions + r.actions == first.actions;
    } else {
      assert AllOnDay(rest, day);
      OneMessagePerDay(chat, first.next, rest, day);
      assert EditsPinned(first.next, day);
      assert DayMessage(first.next, rest[0].env, day) == DayMessage(s, arrivals[0].env, day);
      PinsAppend(first.actions, r.actions);
    }
  }

  /** Where an incoming chat message goes. */
  datatype Route = HandlePoll | Ignore | PassOn

  /** A chat message as the `message` listener sees it. */
  datatype Incoming = Incoming(poll: Option<PollMessage>, chatType: string, homeGroup: bool)

  /** `register`'s listener: polls in a supergroup are handled in the home
      group and dropped silently elsewhere; every other message goes to `next`. */
  function RouteOf(msg: Incoming): (r: Route)
    ensures r == PassOn <==> !(msg.poll.Some? && msg.chatType == "supergroup")
    ensures r == HandlePoll <==> msg.poll.Some? && msg.chatType == "supergroup" && msg.homeGroup
  {
    if msg.poll.Some? && msg.chatType == "supergroup" then
      (if msg.homeGroup then HandlePoll else Ignore)
    else PassOn
  }

  /** The cache of all chats and the log of platform calls. */
  class PollStore {
    var contents: map<ChatId, Digest>     // poll:<chat>:message:content
    var messageIds: map<ChatId, string>   // poll:<chat>:message:id
    var dates: map<ChatId, Day>           // poll:<chat>:date
    var calls: seq<Action>

    /** Only this handler writes the keys: the id always as `String(id)`,
        the content always with single-line entries. */
    ghost predicate Valid()
      reads this
    {
      && (forall c :: c in messageIds ==> IsDecimal(messageIds[c]))
      && (forall c :: c in contents ==> ValidDigest(contents[c]))
    }

    /** `MGET` of the chat's three keys. */
    function Stored(chat: ChatId): (s: Snapshot)
      reads this
      requires Valid()
      ensures ValidSnapshot(s)
    {
      Snapshot(
        if chat in contents then Some(contents[chat]) else None,
        if chat in messageIds then Some(messageIds[chat]) else None,
        if chat in dates then Some(dates[chat]) else None)
    }

    constructor ()
      ensures Valid()
      ensures contents == map[] && messageIds == map[] && dates == map[] && calls == []
    {
      contents, messageIds, dates, calls := map[], map[], map[], [];
    }

    /** `poll`: read the three keys, rebuild the accumulator, render the digest,
        then edit the pinned message or send, store and pin a new one. */
    method HandlePollMessage(chat: ChatId, m: PollMessage, env: Env)
      requires Valid()
      modifies this
      ensures Valid()
      ensures Stored(chat) == Step(chat, old(Stored(chat)), m, env).next
      ensures calls == old(calls) + Step(chat, old(Stored(chat)), m, env).actions
      ensures contents == old(contents)[chat := NextDigest(old(Stored(chat)), env.today, m)]
      ensures EditsPinned(old(Stored(chat)), env.today) ==>
        messageIds == old(messageIds) && dates == old(dates)
      ensures !EditsPinned(old(Stored(chat)), env.today) ==>
        messageIds == old(messageIds)[chat := DecimalString(env.newMessageId)] &&
        dates == old(dates)[chat := env.today]
    {
      var stored := Stored(chat);
      var digest: Digest;
      if StartsFresh(stored, env.today) {
        digest := Digest([], []);
      } else {
        digest := stored.content.value;
      }
      var entry := EntryOf(m);
      if m.kind == Regular {
        digest := digest.(survey := digest.survey + [entry]);
      } else if m.kind == Quiz {
        digest := digest.(quiz := digest.quiz + [entry]);
      }
      assert digest == NextDigest(stored, env.today, m);
      var html := Render(env.dateHeader, ChatLink(env.username), digest);
      if EditsPinned(stored, env.today) {
        calls := calls + [EditText(chat, StoredId(stored.messageId), html)];
        contents := contents[chat := digest];
        return;
      }
      calls := calls + [SendMessage(chat, html, env.newMessageId)];
      messageIds := messageIds[chat := DecimalString(env.newMessageId)];
      contents := contents[chat := digest];
      dates := dates[chat := env.today];
      calls := calls + [PinMessage(chat, env.newMessageId)];
    }

    /** The listener: dispatches by `RouteOf`; only a poll in the home
        supergroup touches the cache or the chat. Returns whether `next` ran. */
    method OnMessage(chat: ChatId, msg: Incoming, env: Env) returns (passedOn: bool)
      requires Valid()
      modifies this
      ensures Valid()
      ensures passedOn <==> RouteOf(msg) == PassOn
      ensures RouteOf(msg) != HandlePoll ==>
        contents == old(contents) && messageIds == old(messageIds) &&
        dates == old(dates) && calls == old(calls)
      ensures RouteOf(msg) == HandlePoll ==>
        Stored(chat) == Step(chat, old(Stored(chat)), msg.poll.value, env).next &&
        calls == old(calls) + Step(chat, old(Stored(chat)), msg.poll.value, env).actions
      ensures RouteOf(msg) == HandlePoll ==>
        contents == old(contents)[chat := NextDigest(old(Stored(chat)), env.today, msg.poll.value)]
      ensures RouteOf(msg) == HandlePoll && EditsPinned(old(Stored(chat)), env.today) ==>
        messageIds == old(messageIds) && dates == old(dates)
      ensures RouteOf(msg) == HandlePoll && !EditsPinned(old(Stored(chat)), env.today) ==>
        messageIds == old(messageIds)[chat := DecimalString(env.newMessageId)] &&
        dates == old(dates)[chat := env.today]
    {
      match RouteOf(msg)
      case PassOn =>
        return true;
      case Ignore =>
        return false;
      case HandlePoll =>
        HandlePollMessage(chat, msg.poll.value, env);
        return false;
    }
  }
}
