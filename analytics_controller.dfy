/** Real-time analytics: every tracked event is stored first and then
    counted in per-bot metrics kept in memory: the distinct users seen, the
    message and command counts and one session per user. The database write
    is a parameter (its failure message, if it fails); the event-bus emits
    and log calls are recorded. */
module Analytics {
  import opened Wrappers
  import LogBuffer

  datatype EventType = Message | Command | ButtonClick | Join | Leave

  /** `platform` and `location` are the two metadata fields a session keeps;
      the rest of the metadata is not read here. */
  datatype AnalyticsEvent = AnalyticsEvent(
    botId: string,
    userId: string,
    eventType: EventType,
    platform: Option<string>,
    location: Option<string>,
    timestamp: int)

  datatype Session = Session(
    startTime: int,
    lastActivity: int,
    eventCount: nat,
    platform: Option<string>,
    location: Option<string>)

  /** One bot's metrics; the floating-point `interactionRate` is not part of
      this model. */
  datatype Metrics = Metrics(
    activeUsers: nat,
    messageCount: nat,
    commandCount: nat,
    userSessions: map<string, Session>)

  /** The two maps the controller mutates. */
  datatype Tracker = Tracker(activeUsers: map<string, set<string>>, metrics: map<string, Metrics>)

  const Fresh: Metrics := Metrics(0, 0, 0, map[])
  const Empty: Tracker := Tracker(map[], map[])

  /** The event's `bot_id` entry, or the initial metrics. */
  function MetricsOf(t: Tracker, botId: string): Metrics {
    if botId in t.metrics then t.metrics[botId] else Fresh
  }

  function UsersOf(t: Tracker, botId: string): set<string> {
    if botId in t.activeUsers then t.activeUsers[botId] else {}
  }

  function Bump(n: nat, hit: bool): nat {
    if hit then n + 1 else n
  }

  /** The user's session, opened at this event when there is none yet, with
      its last activity moved to this event. */
  function Touch(sessions: map<string, Session>, e: AnalyticsEvent): Session {
    var s := if e.userId in sessions then sessions[e.userId]
             else Session(e.timestamp, e.timestamp, 0, e.platform, e.location);
    s.(lastActivity := e.timestamp, eventCount := s.eventCount + 1)
  }

  /** `updateRealtimeMetrics`. */
  function Update(t: Tracker, e: AnalyticsEvent): Tracker {
    var users := UsersOf(t, e.botId) + {e.userId};
    var m := MetricsOf(t, e.botId);
    var m2 := Metrics(
      |users|,
      Bump(m.messageCount, e.eventType == Message),
      Bump(m.commandCount, e.eventType == Command),
      m.userSessions[e.userId := Touch(m.userSessions, e)]);
    Tracker(t.activeUsers[e.botId := users], t.metrics[e.botId := m2])
  }

  /** Each bot's `activeUsers` metric is the size of its user set. */
  ghost predicate Consistent(t: Tracker) {
    t.metrics.Keys == t.activeUsers.Keys
    && forall b :: b in t.metrics ==> t.metrics[b].activeUsers == |t.activeUsers[b]|
  }

  lemma AddCard(a: set<string>, u: string)
    ensures |a| <= |a + {u}| <= |a| + 1
  {
    if u in a {
      assert a + {u} == a;
    }
  }

  /** One update: the event's user joins the bot's user set, the message or
      command count rises by exactly one for that kind of event, the user's
      session keeps its opening time, platform and location and counts one
      more event, other users' sessions and other bots' entries are
      untouched, and the user count never falls. */
  lemma UpdateSpec(t: Tracker, e: AnalyticsEvent)
    requires Consistent(t)
    ensures var r := Update(t, e);
      && Consistent(r)
      && r.activeUsers[e.botId] == UsersOf(t, e.botId) + {e.userId}
      && MetricsOf(t, e.botId).activeUsers <= r.metrics[e.botId].activeUsers <= MetricsOf(t, e.botId).activeUsers + 1
      && r.metrics[e.botId].messageCount == MetricsOf(t, e.botId).messageCount + (if e.eventType == Message then 1 else 0)
      && r.metrics[e.botId].commandCount == MetricsOf(t, e.botId).commandCount + (if e.eventType == Command then 1 else 0)
      && (forall b :: b != e.botId ==> MetricsOf(r, b) == MetricsOf(t, b) && UsersOf(r, b) == UsersOf(t, b))
      && (forall u :: u != e.userId && u in MetricsOf(t, e.botId).userSessions ==>
            u in r.metrics[e.botId].userSessions
            && r.metrics[e.botId].userSessions[u] == MetricsOf(t, e.botId).userSessions[u])
  {
    AddCard(UsersOf(t, e.botId), e.userId);
  }

  /** The session update on its own: the first event opens the session with
      its own time and metadata; later events only move `lastActivity` and
      count. */
  lemma TouchSpec(sessions: map<string, Session>, e: AnalyticsEvent)
    ensures var s := Touch(sessions, e);
      && s.lastActivity == e.timestamp
      && (e.userId in sessions ==>
            s.startTime == sessions[e.userId].startTime
            && s.platform == sessions[e.userId].platform
            && s.location == sessions[e.userId].location
            && s.eventCount == sessions[e.userId].eventCount + 1)
      && (e.userId !in sessions ==> s == Session(e.timestamp, e.timestamp, 1, e.platform, e.location))
  {
  }

  /** The events tracked so far, oldest first, applied in order. */
  function UpdateAll(t: Tracker, es: seq<AnalyticsEvent>): Tracker
    decreases |es|
  {
    if es == [] then t else Update(UpdateAll(t, es[..|es| - 1]), es[|es| - 1])
  }

  /** The distinct users that produced events for a bot. */
  function Users(es: seq<AnalyticsEvent>, botId: string): set<string>
    decreases |es|
  {
    if es == [] then {}
    else
      var last := es[|es| - 1];
      Users(es[..|es| - 1], botId) + (if last.botId == botId then {last.userId} else {})
  }

  /** How many of the events are of the given kind for the bot. */
  function Tally(es: seq<AnalyticsEvent>, botId: string, kind: EventType): nat
    decreases |es|
  {
    if es == [] then 0
    else
      var last := es[|es| - 1];
      Tally(es[..|es| - 1], botId, kind) + (if last.botId == botId && last.eventType == kind then 1 else 0)
  }

  /** How many of the events a user produced for the bot. */
  function UserEvents(es: seq<AnalyticsEvent>, botId: string, userId: string): nat
    decreases |es|
  {
    if es == [] then 0
    else
      var last := es[|es| - 1];
      UserEvents(es[..|es| - 1], botId, userId) + (if last.botId == botId && last.userId == userId then 1 else 0)
  }

  /** One update seen from one bot: it gains metrics when the event is its
      own, its user set grows by the event's user exactly then, and its
      counts rise by one for its own message or command events. */
  lemma UpdateAt(t: Tracker, e: AnalyticsEvent, botId: string)
    requires Consistent(t)
    ensures var r := Update(t, e);
      var own := e.botId == botId;
      && Consistent(r)
      && (botId in r.metrics <==> botId in t.metrics || own)
      && UsersOf(r, botId) == UsersOf(t, botId) + (if own then {e.userId} else {})
      && MetricsOf(r, botId).messageCount == MetricsOf(t, botId).messageCount + (if own && e.eventType == Message then 1 else 0)
      && MetricsOf(r, botId).commandCount == MetricsOf(t, botId).commandCount + (if own && e.eventType == Command then 1 else 0)
  {
    UpdateSpec(t, e);
  }

  /** One update seen from one user of one bot: the user gains a session
      when the event is theirs, and the session counts one more event then. */
  lemma SessionAt(t: Tracker, e: AnalyticsEvent, botId: string, userId: string)
    ensures var before := MetricsOf(t, botId).userSessions;
      var after := MetricsOf(Update(t, e), botId).userSessions;
      var own := e.botId == botId && e.userId == userId;
      && (userId in after <==> userId in before || own)
      && (userId in after ==>
            after[userId].eventCount == (if userId in before then before[userId].eventCount else 0) + (if own then 1 else 0))
  {
    TouchSpec(MetricsOf(t, e.botId).userSessions, e);
  }

  /** From empty maps, a bot has metrics exactly when it has events, its
      `activeUsers` is the number of distinct users among them, and its
      message and command counts are the numbers of such events. */
  lemma {:induction false} UpdateAllCounts(es: seq<AnalyticsEvent>, botId: string)
    ensures var r := UpdateAll(Empty, es);
      && Consistent(r)
      && (botId in r.metrics <==> Users(es, botId) != {})
      && UsersOf(r, botId) == Users(es, botId)
      && MetricsOf(r, botId).activeUsers == |Users(es, botId)|
      && MetricsOf(r, botId).messageCount == Tally(es, botId, Message)
      && MetricsOf(r, botId).commandCount == Tally(es, botId, Command)
    decreases |es|
  {
    if es != [] {
      var prefix := es[..|es| - 1];
      UpdateAllCounts(prefix, botId);
      UpdateAt(UpdateAll(Empty, prefix), es[|es| - 1], botId);
    }
  }

  /** From empty maps, a user has a session with a bot exactly when the
      user produced an event for it, and the session counts those events. */
  lemma {:induction false} UpdateAllSessions(es: seq<AnalyticsEvent>, botId: string, userId: string)
    ensures var sessions := MetricsOf(UpdateAll(Empty, es), botId).userSessions;
      && (userId in sessions <==> UserEvents(es, botId, userId) > 0)
      && (userId in sessions ==> sessions[userId].eventCount == UserEvents(es, botId, userId))
    decreases |es|
  {
    if es != [] {
      var prefix := es[..|es| - 1];
      UpdateAllSessions(prefix, botId, userId);
      SessionAt(UpdateAll(Empty, prefix), es[|es| - 1], botId, userId);
    }
  }

  /** `trackEvent`: the event is stored and only then counted and emitted;
      the event-type key it emits under is missing from the event-type
      table, so the bus logs the name `undefined`. A storage failure is
      logged and changes no metric. */
  datatype Outcome = Outcome(tracker: Tracker, emitted: seq<AnalyticsEvent>, logged: seq<LogBuffer.LogEntry>)

  const EmitLogMessage: string := "Event tetiklendi: undefined"

  function StoreFailedMessage(m: string): string {
    "Analiz olayı kaydedilirken hata: " + m
  }

  function Track(o: Outcome, e: AnalyticsEvent, storeFailure: Option<string>, now: string): (r: Outcome)
    ensures storeFailure.Some? ==> r.tracker == o.tracker && r.emitted == o.emitted
    ensures storeFailure.None? ==> r.tracker == Update(o.tracker, e) && r.emitted == o.emitted + [e]
    ensures |r.logged| == |o.logged| + 1 && r.logged[..|o.logged|] == o.logged
    ensures storeFailure.None? ==>
      r.logged[|o.logged|] == LogBuffer.LogEntry(now, LogBuffer.Info, EmitLogMessage, None, None)
    ensures storeFailure.Some? ==>
      r.logged[|o.logged|] == LogBuffer.LogEntry(now, LogBuffer.Error, StoreFailedMessage(storeFailure.value), None, None)
  {
    match storeFailure
    case Some(m) =>
      o.(logged := o.logged + [LogBuffer.LogEntry(now, LogBuffer.Error, StoreFailedMessage(m), None, None)])
    case None =>
      Outcome(Update(o.tracker, e), o.emitted + [e],
              o.logged + [LogBuffer.LogEntry(now, LogBuffer.Info, EmitLogMessage, None, None)])
  }

  class AnalyticsController {
    var activeUsers: map<string, set<string>>
    var realtimeMetrics: map<string, Metrics>
    /** Events emitted on the bus, oldest first. */
    var emitted: seq<AnalyticsEvent>
    /** Entries written to the server log, oldest first. */
    var logged: seq<LogBuffer.LogEntry>

    function State(): Outcome
      reads this
    {
      Outcome(Tracker(activeUsers, realtimeMetrics), emitted, logged)
    }

    constructor()
      ensures State() == Outcome(Empty, [], [])
    {
      activeUsers := map[];
      realtimeMetrics := map[];
      emitted := [];
      logged := [];
    }

    method UpdateRealtimeMetrics(e: AnalyticsEvent)
      modifies this
      ensures State() == old(State()).(tracker := Update(old(State()).tracker, e))
    {
      ghost var t := Tracker(activeUsers, realtimeMetrics);
      var metrics := if e.botId in realtimeMetrics then realtimeMetrics[e.botId] else Fresh;
      assert metrics == MetricsOf(t, e.botId);
      if e.botId !in activeUsers {
        activeUsers := activeUsers[e.botId := {}];
      }
      activeUsers := activeUsers[e.botId := activeUsers[e.botId] + {e.userId}];
      assert activeUsers == Update(t, e).activeUsers;
      metrics := metrics.(activeUsers := |activeUsers[e.botId]|);
      if e.eventType == Message {
        metrics := metrics.(messageCount := metrics.messageCount + 1);
      }
      if e.eventType == Command {
        metrics := metrics.(commandCount := metrics.commandCount + 1);
      }
      var session := if e.userId in metrics.userSessions then metrics.userSessions[e.userId]
                     else Session(e.timestamp, e.timestamp, 0, e.platform, e.location);
      session := session.(lastActivity := e.timestamp);
      session := session.(eventCount := session.eventCount + 1);
      assert session == Touch(MetricsOf(t, e.botId).userSessions, e);
      metrics := metrics.(userSessions := metrics.userSessions[e.userId := session]);
      assert metrics == Update(t, e).metrics[e.botId];
      realtimeMetrics := realtimeMetrics[e.botId := metrics];
    }

    method TrackEvent(e: AnalyticsEvent, storeFailure: Option<string>, now: string)
      modifies this
      ensures State() == Track(old(State()), e, storeFailure, now)
    {
      if storeFailure.Some? {
        logged := logged + [LogBuffer.LogEntry(now, LogBuffer.Error, StoreFailedMessage(storeFailure.value), None, None)];
        return;
      }
      UpdateRealtimeMetrics(e);
      logged := logged + [LogBuffer.LogEntry(now, LogBuffer.Info, EmitLogMessage, None, None)];
      emitted := emitted + [e];
    }
  }
}
