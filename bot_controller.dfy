/** The server's bot supervisor: a periodic check that reconciles each active
    bot's recorded status with whether its Telegram client is running, the
    status updates it broadcasts, and the rules applied when a bot receives a
    message or reports a polling error. The clock's reading, the database's
    answer and the AI service's reply are parameters; what is logged,
    broadcast, emitted on the event bus and queued for sending is recorded. */
module BotControl {
  import opened Wrappers
  import opened Strings
  import LogBuffer

  datatype Status = Online | Offline | Error

  /** One value of the `botStatus` map. */
  datatype StatusEntry = StatusEntry(status: Status, lastUpdate: string, error: Option<string>)

  /** A bot row as the status check reads it. */
  datatype DbBot = DbBot(id: string, isim: string, aktif: bool)

  /** `io.emit('botStatusUpdate', …)`. */
  datatype Broadcast = StatusUpdate(botId: string, status: Status, lastUpdate: string, error: Option<string>)

  /** Event-bus events this controller emits. */
  datatype Event =
    | StatusChanged(botId: string, botName: string, status: Status, timestamp: string)
    | MessageReceived(botId: string, timestamp: string)
    | ErrorOccurred(botId: string, error: string)

  function EventName(e: Event): string {
    match e
    case StatusChanged(_, _, _, _) => "bot:status_changed"
    case MessageReceived(_, _) => "message:received"
    case ErrorOccurred(_, _) => "error:occurred"
  }

  /** An AI answer handed to the outgoing message queue. */
  datatype Reply = Reply(botId: string, chatId: int, message: string)

  /** Everything the controller changes or records. */
  datatype Snapshot = Snapshot(
    statuses: map<string, StatusEntry>,
    broadcasts: seq<Broadcast>,
    events: seq<Event>,
    logged: seq<LogBuffer.LogLine>,
    replies: seq<Reply>)

  function Lookup(statuses: map<string, StatusEntry>, id: string): Option<StatusEntry> {
    if id in statuses then Some(statuses[id]) else None
  }

  /** `updateBotStatus`: only `botId`'s entry is replaced, and the new entry
      is broadcast. */
  function SetStatus(s: Snapshot, botId: string, status: Status, error: Option<string>, now: string): (r: Snapshot)
    ensures r.statuses.Keys == s.statuses.Keys + {botId}
    ensures r.statuses[botId] == StatusEntry(status, now, error)
    ensures forall id :: id in s.statuses && id != botId ==> r.statuses[id] == s.statuses[id]
    ensures r.broadcasts == s.broadcasts + [StatusUpdate(botId, status, now, error)]
    ensures r.events == s.events && r.logged == s.logged && r.replies == s.replies
  {
    s.(statuses := s.statuses[botId := StatusEntry(status, now, error)],
       broadcasts := s.broadcasts + [StatusUpdate(botId, status, now, error)])
  }

  /** `eventBus.emit`: the bus logs the event's name before delivering it. */
  function Emit(s: Snapshot, e: Event): Snapshot {
    s.(events := s.events + [e],
       logged := s.logged + [LogBuffer.LogLine(LogBuffer.Info, "Event tetiklendi: " + EventName(e))])
  }

  /** The status a bot's running client calls for. */
  function Expected(connected: bool): Status {
    if connected then Online else Offline
  }

  /** The status check's rule: the new status, or `None` when the entry is
      left alone. */
  function Transition(current: Option<StatusEntry>, connected: bool): Option<Status> {
    if connected && (current.None? || current.value.status == Offline) then Some(Online)
    else if !connected && (current.None? || current.value.status == Online) then Some(Offline)
    else None
  }

  /** The check leaves an entry alone exactly when it is `error` or already
      agrees with the client; otherwise it moves it to the status the client
      calls for. */
  lemma TransitionRule(current: Option<StatusEntry>, connected: bool)
    ensures Transition(current, connected).None? <==>
      current.Some? && (current.value.status == Error || current.value.status == Expected(connected))
    ensures Transition(current, connected).Some? ==> Transition(current, connected).value == Expected(connected)
  {
  }

  /** An entry is settled for a bot when it is `error` or agrees with the
      bot's client. */
  predicate Settled(statuses: map<string, StatusEntry>, id: string, connected: set<string>) {
    id in statuses && (statuses[id].status == Error || statuses[id].status == Expected(id in connected))
  }

  /** One bot of the check: an inactive bot is not examined; an active one
      whose status changes gets the new status and exactly one
      `bot:status_changed` event. */
  function CheckStep(s: Snapshot, bot: DbBot, connected: set<string>, now: string): Snapshot {
    if !bot.aktif then s
    else
      match Transition(Lookup(s.statuses, bot.id), bot.id in connected)
      case None => s
      case Some(st) => Emit(SetStatus(s, bot.id, st, None, now), StatusChanged(bot.id, bot.isim, st, now))
  }

  /** The check over the bots in the order the database returned them. */
  function CheckAll(s: Snapshot, bots: seq<DbBot>, connected: set<string>, now: string): Snapshot
    decreases |bots|
  {
    if bots == [] then s
    else CheckStep(CheckAll(s, bots[..|bots| - 1], connected, now), bots[|bots| - 1], connected, now)
  }

  /** One step: the bot's entry ends settled (when the bot is active), no
      other entry changes, and exactly one event is emitted when the entry
      changed and none otherwise. */
  lemma StepSpec(s: Snapshot, bot: DbBot, connected: set<string>, now: string)
    ensures var r := CheckStep(s, bot, connected, now);
      && (bot.aktif ==> Settled(r.statuses, bot.id, connected))
      && (forall id :: id != bot.id ==> Lookup(r.statuses, id) == Lookup(s.statuses, id))
      && (Settled(s.statuses, bot.id, connected) || !bot.aktif ==> r == s)
      && (r != s ==> r.events == s.events + [StatusChanged(bot.id, bot.isim, Expected(bot.id in connected), now)])
  {
    TransitionRule(Lookup(s.statuses, bot.id), bot.id in connected);
  }

  /** After a check every active bot's entry is settled. */
  lemma {:induction false} CheckAllSettles(s: Snapshot, bots: seq<DbBot>, connected: set<string>, now: string, i: int)
    requires 0 <= i < |bots| && bots[i].aktif
    ensures Settled(CheckAll(s, bots, connected, now).statuses, bots[i].id, connected)
    decreases |bots|
  {
    var prefix := bots[..|bots| - 1];
    var last := bots[|bots| - 1];
    var mid := CheckAll(s, prefix, connected, now);
    StepSpec(mid, last, connected, now);
    if i < |bots| - 1 && !(last.aktif && last.id == bots[i].id) {
      assert prefix[i] == bots[i];
      CheckAllSettles(s, prefix, connected, now, i);
      assert Lookup(CheckAll(s, bots, connected, now).statuses, bots[i].id) == Lookup(mid.statuses, bots[i].id);
    }
  }

  /** A check changes nothing once every active bot is settled. */
  lemma {:induction false} CheckAllStable(s: Snapshot, bots: seq<DbBot>, connected: set<string>, now: string)
    requires forall i :: 0 <= i < |bots| && bots[i].aktif ==> Settled(s.statuses, bots[i].id, connected)
    ensures CheckAll(s, bots, connected, now) == s
    decreases |bots|
  {
    if bots != [] {
      var prefix := bots[..|bots| - 1];
      assert forall i :: 0 <= i < |prefix| ==> prefix[i] == bots[i];
      CheckAllStable(s, prefix, connected, now);
      StepSpec(s, bots[|bots| - 1], connected, now);
    }
  }

  /** Running the check twice with the same clients running is the same as
      running it once: the second run changes no entry and emits nothing. */
  lemma CheckIdempotent(s: Snapshot, bots: seq<DbBot>, connected: set<string>, now: string, later: string)
    ensures CheckAll(CheckAll(s, bots, connected, now), bots, connected, later) == CheckAll(s, bots, connected, now)
  {
    var once := CheckAll(s, bots, connected, now);
    forall i | 0 <= i < |bots| && bots[i].aktif ensures Settled(once.statuses, bots[i].id, connected) {
      CheckAllSettles(s, bots, connected, now, i);
    }
    CheckAllStable(once, bots, connected, later);
  }

  /** The check only touches the entries of active bots it examined, so an
      `error` entry, or the entry of a bot not in the list, is kept. */
  lemma {:induction false} CheckAllKeeps(s: Snapshot, bots: seq<DbBot>, connected: set<string>, now: string, id: string)
    requires (id in s.statuses && s.statuses[id].status == Error)
      || forall i :: 0 <= i < |bots| ==> bots[i].id != id || !bots[i].aktif
    ensures Lookup(CheckAll(s, bots, connected, now).statuses, id) == Lookup(s.statuses, id)
    decreases |bots|
  {
    if bots != [] {
      var prefix := bots[..|bots| - 1];
      assert forall i :: 0 <= i < |prefix| ==> prefix[i] == bots[i];
      CheckAllKeeps(s, prefix, connected, now, id);
      StepSpec(CheckAll(s, prefix, connected, now), bots[|bots| - 1], connected, now);
    }
  }

  /** The event announcing that an active bot of the list took the status
      its client calls for. */
  predicate Announces(e: Event, bots: seq<DbBot>, connected: set<string>, now: string) {
    exists i :: 0 <= i < |bots| && bots[i].aktif
      && e == StatusChanged(bots[i].id, bots[i].isim, Expected(bots[i].id in connected), now)
  }

  /** Every event a check emits announces an active bot of the list taking
      the status its client calls for, and there are at most as many events
      as bots; nothing is queued and earlier events stay. */
  lemma {:induction false} CheckAllEvents(s: Snapshot, bots: seq<DbBot>, connected: set<string>, now: string)
    ensures var r := CheckAll(s, bots, connected, now);
      && |s.events| <= |r.events| <= |s.events| + |bots|
      && r.events[..|s.events|] == s.events
      && r.replies == s.replies
      && forall k :: |s.events| <= k < |r.events| ==> Announces(r.events[k], bots, connected, now)
    decreases |bots|
  {
    if bots != [] {
      var prefix := bots[..|bots| - 1];
      var last := bots[|bots| - 1];
      var mid := CheckAll(s, prefix, connected, now);
      var r := CheckAll(s, bots, connected, now);
      CheckAllEvents(s, prefix, connected, now);
      StepSpec(mid, last, connected, now);
      assert r.events[..|mid.events|] == mid.events;
      forall k | |s.events| <= k < |r.events|
        ensures Announces(r.events[k], bots, connected, now)
      {
        if k < |mid.events| {
          assert r.events[k] == mid.events[k];
          assert |s.events| <= k < |mid.events|;
          assert Announces(mid.events[k], prefix, connected, now);
          var i :| 0 <= i < |prefix| && prefix[i].aktif
            && mid.events[k] == StatusChanged(prefix[i].id, prefix[i].isim, Expected(prefix[i].id in connected), now);
          assert bots[i] == prefix[i];
        } else {
          assert r.events[k] == StatusChanged(last.id, last.isim, Expected(last.id in connected), now);
          assert bots[|bots| - 1] == last;
        }
      }
    }
  }

  /** `checkBotsStatus`: the database's list of active bots, or the message
      of the error it threw, which is logged. */
  function AfterCheck(s: Snapshot, found: Result<seq<DbBot>, string>, connected: set<string>, now: string): Snapshot {
    match found
    case Err(m) => s.(logged := s.logged + [LogBuffer.LogLine(LogBuffer.Error, "Bot durumları kontrol edilirken hata: " + m)])
    case Ok(bots) => CheckAll(s, bots, connected, now)
  }

  /** An incoming message is answered by the AI only when it has text that
      does not start with a command slash. */
  predicate ShouldReply(text: Option<string>) {
    text.Some? && text.value != "" && !StartsWith(text.value, "/")
  }

  lemma ShouldReplyIff(text: Option<string>)
    ensures ShouldReply(text) <==> text.Some? && |text.value| > 0 && text.value[0] != '/'
  {
    if text.Some? && |text.value| > 0 {
      assert StartsWith(text.value, "/") <==> text.value[..1] == ['/'];
    }
  }

  /** The `message` handler. `failure` is the message of an error thrown
      while storing the message, asking the AI service or queueing the
      answer; it is logged and puts the bot in `error`, and then nothing is
      queued or emitted. */
  function AfterMessage(s: Snapshot, botId: string, chatId: int, text: Option<string>,
                     aiReply: string, failure: Option<string>, now: string): Snapshot {
    match failure
    case Some(m) =>
      SetStatus(s.(logged := s.logged + [LogBuffer.LogLine(LogBuffer.Error, "Mesaj işlenirken hata: " + m)]),
                botId, Error, Some(m), now)
    case None =>
      var queued := if ShouldReply(text) then s.replies + [Reply(botId, chatId, aiReply)] else s.replies;
      Emit(s.(replies := queued), MessageReceived(botId, now))
  }

  /** A message is answered, exactly once, iff it is handled without error
      and calls for a reply; a handled message keeps the bot's status and
      emits one event, a failed one records the error as the bot's status. */
  lemma OnMessageSpec(s: Snapshot, botId: string, chatId: int, text: Option<string>,
                      aiReply: string, failure: Option<string>, now: string)
    ensures var r := AfterMessage(s, botId, chatId, text, aiReply, failure, now);
      && (r.replies == s.replies + [Reply(botId, chatId, aiReply)] <==> failure.None? && ShouldReply(text))
      && (r.replies != s.replies ==> r.replies == s.replies + [Reply(botId, chatId, aiReply)])
      && (failure.None? ==> r.statuses == s.statuses && r.events == s.events + [MessageReceived(botId, now)])
      && (failure.Some? ==> r.statuses[botId] == StatusEntry(Error, now, failure) && r.events == s.events)
  {
  }

  /** The `polling_error` handler: logged, recorded as the bot's `error`
      status and announced on the bus. */
  function AfterPollingError(s: Snapshot, botId: string, m: string, now: string): Snapshot {
    var logged := s.(logged := s.logged + [LogBuffer.LogLine(LogBuffer.Error, "Bot polling hatası: " + m)]);
    Emit(SetStatus(logged, botId, Error, Some(m), now), ErrorOccurred(botId, m))
  }

  /** A polling error leaves the bot in `error` with that message, which no
      later check undoes, and emits exactly one event. */
  lemma PollingErrorSticky(s: Snapshot, botId: string, m: string, now: string,
                           bots: seq<DbBot>, connected: set<string>, later: string)
    ensures var r := AfterPollingError(s, botId, m, now);
      && r.statuses[botId] == StatusEntry(Error, now, Some(m))
      && r.events == s.events + [ErrorOccurred(botId, m)]
      && Lookup(CheckAll(r, bots, connected, later).statuses, botId) == Some(StatusEntry(Error, now, Some(m)))
  {
    CheckAllKeeps(AfterPollingError(s, botId, m, now), bots, connected, later, botId);
  }

  /** Setting up a bot's handlers ends by marking it online, so while its
      client runs the next check leaves it alone and emits nothing for it. */
  lemma SetupThenCheckQuiet(s: Snapshot, bot: DbBot, connected: set<string>, now: string, later: string)
    requires bot.id in connected
    ensures CheckStep(SetStatus(s, bot.id, Online, None, now), bot, connected, later)
         == SetStatus(s, bot.id, Online, None, now)
  {
    StepSpec(SetStatus(s, bot.id, Online, None, now), bot, connected, later);
  }

  class BotController {
    /** Ids of the bots whose Telegram client is running (the keys of
        `bots`). */
    var connected: set<string>
    var statuses: map<string, StatusEntry>
    var broadcasts: seq<Broadcast>
    var events: seq<Event>
    var logged: seq<LogBuffer.LogLine>
    var replies: seq<Reply>

    function State(): Snapshot
      reads this
    {
      Snapshot(statuses, broadcasts, events, logged, replies)
    }

    /** The clients are started by code outside this model, so the running
        set is given. */
    constructor(running: set<string>)
      ensures connected == running
      ensures State() == Snapshot(map[], [], [], [], [])
    {
      connected := running;
      statuses := map[];
      broadcasts := [];
      events := [];
      logged := [];
      replies := [];
    }

    method UpdateBotStatus(botId: string, status: Status, error: Option<string>, now: string)
      modifies this
      ensures State() == SetStatus(old(State()), botId, status, error, now)
      ensures connected == old(connected)
    {
      statuses := statuses[botId := StatusEntry(status, now, error)];
      broadcasts := broadcasts + [StatusUpdate(botId, status, now, error)];
    }

    method EmitEvent(e: Event)
      modifies this
      ensures State() == Emit(old(State()), e)
      ensures connected == old(connected)
    {
      logged := logged + [LogBuffer.LogLine(LogBuffer.Info, "Event tetiklendi: " + EventName(e))];
      events := events + [e];
    }

    method CheckBotsStatus(found: Result<seq<DbBot>, string>, now: string)
      modifies this
      ensures State() == AfterCheck(old(State()), found, connected, now)
      ensures connected == old(connected)
    {
      if found.Err? {
        logged := logged + [LogBuffer.LogLine(LogBuffer.Error, "Bot durumları kontrol edilirken hata: " + found.error)];
        return;
      }
      var bots := found.value;
      ghost var start := State();
      for i := 0 to |bots|
        invariant State() == CheckAll(start, bots[..i], connected, now)
        invariant connected == old(connected)
      {
        assert bots[..i + 1][..i] == bots[..i];
        var bot := bots[i];
        if bot.aktif {
          var current := Lookup(statuses, bot.id);
          var isConnected := bot.id in connected;
          if isConnected && (current.None? || current.value.status == Offline) {
            UpdateBotStatus(bot.id, Online, None, now);
            EmitEvent(StatusChanged(bot.id, bot.isim, Online, now));
          } else if !isConnected && (current.None? || current.value.status == Online) {
            UpdateBotStatus(bot.id, Offline, None, now);
            EmitEvent(StatusChanged(bot.id, bot.isim, Offline, now));
          }
        }
      }
      assert bots[..|bots|] == bots;
    }

    method OnMessage(botId: string, chatId: int, text: Option<string>,
                     aiReply: string, failure: Option<string>, now: string)
      modifies this
      ensures State() == AfterMessage(old(State()), botId, chatId, text, aiReply, failure, now)
      ensures connected == old(connected)
    {
      if failure.Some? {
        logged := logged + [LogBuffer.LogLine(LogBuffer.Error, "Mesaj işlenirken hata: " + failure.value)];
        UpdateBotStatus(botId, Error, failure, now);
        return;
      }
      if text.Some? && text.value != "" && !StartsWith(text.value, "/") {
        replies := replies + [Reply(botId, chatId, aiReply)];
      }
      EmitEvent(MessageReceived(botId, now));
    }

    method OnPollingError(botId: string, m: string, now: string)
      modifies this
      ensures State() == AfterPollingError(old(State()), botId, m, now)
      ensures connected == old(connected)
    {
      logged := logged + [LogBuffer.LogLine(LogBuffer.Error, "Bot polling hatası: " + m)];
      UpdateBotStatus(botId, Error, Some(m), now);
      EmitEvent(ErrorOccurred(botId, m));
    }

    /** `setupBotHandlers`: the handlers above are attached to the client,
        then the bot is marked online. */
    method SetupBotHandlers(botId: string, now: string)
      modifies this
      ensures State() == SetStatus(old(State()), botId, Online, None, now)
      ensures connected == old(connected)
    {
      UpdateBotStatus(botId, Online, None, now);
    }
  }
}
