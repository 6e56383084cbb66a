/** The middleware chain in its registration order (throttling, bot status,
    ban, channel subscription, banner) and the exchange handlers behind it.
    Every middleware hooks the processing phase, which the dispatcher enters
    only once a handler has matched, with that handler as the current one;
    the first gate that cancels stops the rest and the handler. */
module Pipeline {
  import opened Outcomes
  import opened Updates
  import Store
  import Access
  import Throttling
  import Exchange
  import Admin
  import Config
  import Keyboards
  import Text

  /** What the gates consult besides the update and the store: the admin
      ids, one listing of the channels table, the membership lookup, whether
      the subscription cancel escapes its `try`, and the dispatcher's
      throttling answer for a bucket and rate. */
  datatype World = World(
    admins: seq<int>,
    channels: seq<(string, string)>,
    member: string -> Access.Membership,
    cancelEscapes: bool,
    throttle: (string, real) -> Throttling.Throttle)

  /** The chain for one update whose handler `h` has matched. */
  function Gates(w: World, u: Update, h: Throttling.Handler, db: Store.Db): (g: GateOut)
    requires Store.ListsChannels(w.channels, db)
    ensures g.verdict == Continue ==> Throttling.Check(Throttling.Defaults, Some(h), u.kind, w.throttle) == Pass
  {
    Then(Throttling.Check(Throttling.Defaults, Some(h), u.kind, w.throttle),
      Then(Access.BotStatusGate(w.admins, u, db),
        Then(Access.BanGate(w.admins, u, db),
          Then(Access.SubscriptionGate(w.admins, u, db, w.channels, w.member, w.cancelEscapes),
            Access.BannerGate(w.admins, u, db)))))
  }

  /** The bucket answer the chain asks for. */
  function Answer(w: World, u: Update, h: Throttling.Handler): Throttling.Throttle {
    w.throttle(Throttling.Key(Throttling.Defaults, Some(h), u.kind), Throttling.Limit(Throttling.Defaults, Some(h)))
  }

  /** A connection to the store when `connects`, nothing otherwise. */
  function Connect(connects: bool, db: Store.Db): Store.Db {
    if connects then Store.Open(db) else db
  }

  /** The store after the connections the chain makes, gate by gate: the
      bot-status, ban and subscription gates connect for every non-admin
      they see, the banner gate only for a non-admin pressing 'exchange'.
      Only the first connection can change anything: it adds the missing
      status row. */
  function GatesStore(w: World, u: Update, h: Throttling.Handler, db: Store.Db): (r: Store.Db)
    requires Store.ListsChannels(w.channels, db)
    ensures !Answer(w, u, h).Allowed? || Access.IsAdminId(w.admins, u.userId) ==> r == db
    ensures Answer(w, u, h).Allowed? && !Access.IsAdminId(w.admins, u.userId) ==> r == Store.Open(db)
  {
    var nonAdmin := !Access.IsAdminId(w.admins, u.userId);
    if Throttling.Check(Throttling.Defaults, Some(h), u.kind, w.throttle).verdict == Halt then db
    else
      var d1 := Connect(nonAdmin, db);
      if Access.BotStatusGate(w.admins, u, db).verdict == Halt then d1
      else
        var d2 := Connect(nonAdmin, d1);
        if Access.BanGate(w.admins, u, d1).verdict == Halt then d2
        else
          var d3 := Connect(nonAdmin, d2);
          if Access.SubscriptionGate(w.admins, u, db, w.channels, w.member, w.cancelEscapes).verdict == Halt then d3
          else Connect(nonAdmin && u.kind == CallbackUpdate && u.payload == "exchange", d3)
  }

  /** Some channel of the listing reports the user as having left. */
  predicate LeftSome(w: World) {
    exists j :: 0 <= j < |w.channels| && Access.HasLeft(w.channels, w.member, j)
  }

  /** Reference statement of the chain: the handler runs exactly when the
      bucket allows it and, for a non-admin, the bot is not off, the user is
      not banned, and no escaping subscription cancel fires. */
  lemma {:induction false} ProceedIff(w: World, u: Update, h: Throttling.Handler, db: Store.Db)
    requires Store.ListsChannels(w.channels, db)
    ensures Gates(w, u, h, db).verdict == Continue <==>
      && Answer(w, u, h).Allowed?
      && (Access.IsAdminId(w.admins, u.userId)
          || (&& db.botStatus != Some("off")
              && !(u.userId in db.users && db.users[u.userId].banned)
              && !(w.cancelEscapes && LeftSome(w))))
  {
    var sub := Access.SubscriptionGate(w.admins, u, db, w.channels, w.member, w.cancelEscapes);
    if !Access.IsAdminId(w.admins, u.userId) && w.channels != [] {
      assert sub == Access.Scan(w.channels, w.member, w.cancelEscapes, 0);
      assert sub.verdict == Halt <==> w.cancelEscapes && LeftSome(w);
    }
  }

  /** The configured admins can only be stopped by the anti-flood gate, and
      see no notice from any other gate. */
  lemma AdminsOnlyThrottled(w: World, u: Update, h: Throttling.Handler, db: Store.Db)
    requires Store.ListsChannels(w.channels, db)
    requires Access.IsAdminId(w.admins, u.userId)
    ensures Gates(w, u, h, db).verdict == Continue <==> Answer(w, u, h).Allowed?
    ensures Gates(w, u, h, db).notices == Throttling.Check(Throttling.Defaults, Some(h), u.kind, w.throttle).notices
  {
  }

  /** A throttled update stops at the first gate: at most the slow-down
      warning, nothing from the gates after it. */
  lemma ThrottledStopsFirst(w: World, u: Update, h: Throttling.Handler, db: Store.Db)
    requires Store.ListsChannels(w.channels, db)
    requires Answer(w, u, h).Throttled?
    ensures Gates(w, u, h, db).verdict == Halt
    ensures Gates(w, u, h, db).notices == [SlowDown] || Gates(w, u, h, db).notices == []
  {
  }

  /** With the bot off, a non-admin whose update the bucket allows is told
      the bot is disabled, and nothing else. */
  lemma BotOffTellsOnlyThat(w: World, u: Update, h: Throttling.Handler, db: Store.Db)
    requires Store.ListsChannels(w.channels, db)
    requires !Access.IsAdminId(w.admins, u.userId) && db.botStatus == Some("off")
    requires Answer(w, u, h).Allowed?
    ensures Gates(w, u, h, db) == GateOut(Halt, [BotDisabled])
  {
  }

  /** With no channels stored and no other cancel, a non-admin pressing 'exchange'
      is shown the banner before the handler runs, and the handler runs. */
  lemma BannerBeforeHandler(w: World, userId: int, h: Throttling.Handler, db: Store.Db)
    requires Store.ListsChannels(w.channels, db) && db.channels == map[]
    requires !Access.IsAdminId(w.admins, userId)
    requires db.botStatus != Some("off") && !(userId in db.users && db.users[userId].banned)
    requires db.banner.Some?
    requires Answer(w, Update(userId, CallbackUpdate, "exchange"), h).Allowed?
    ensures Gates(w, Update(userId, CallbackUpdate, "exchange"), h, db) == GateOut(Continue, [BannerAlert(db.banner.value)])
  {
  }

  // ---------------------------------------------------------------------
  // The chain in front of the exchange handlers
  // ---------------------------------------------------------------------

  /** How a flow update reaches the gates. */
  function AsUpdate(userId: int, ev: Exchange.Event): (u: Update)
    ensures u.userId == userId
    ensures ev.Press? <==> u.kind == CallbackUpdate
    ensures u.payload == if ev.Press? then ev.data else ev.text
  {
    match ev
    case Press(data) => Update(userId, CallbackUpdate, data)
    case Message(text) => Update(userId, MessageUpdate, text)
  }

  /** None of the flow handlers carries a `rate_limit` decoration. */
  function FlowHandler(s: Exchange.Session, ev: Exchange.Event): (h: Throttling.Handler)
    requires Exchange.Matches(s, ev)
    ensures h.rateLimit.None? && h.key.None?
  {
    Throttling.Handler(Exchange.HandlerName(s, ev), None, None)
  }

  /** The handler's outcome and what the gates showed on the way. */
  datatype Result = Result(outcome: Exchange.Outcome, notices: seq<Notice>)

  /** One update through the chain and, when no gate cancels, the flow on
      the store the gates' connections left. */
  function Handle(w: World, s: Exchange.Session, userId: int, ev: Exchange.Event, db: Store.Db, env: Exchange.Env): (r: Result)
    requires Exchange.Ready(s, ev, db, env) && Store.ListsChannels(w.channels, db)
    ensures !Exchange.Matches(s, ev) ==> r == Result(Exchange.Unhandled(s, db), [])
  {
    if !Exchange.Matches(s, ev) then Result(Exchange.Unhandled(s, db), [])
    else
      var u := AsUpdate(userId, ev);
      var h := FlowHandler(s, ev);
      var g := Gates(w, u, h, db);
      var db' := GatesStore(w, u, h, db);
      assert db'.currencies == db.currencies;
      if g.verdict == Halt then Result(Exchange.Unhandled(s, db'), g.notices)
      else Result(Exchange.Step(s, userId, ev, db', env), g.notices)
  }

  /** A cancelled update leaves the session as it was, notifies nobody, and
      changes the store at most by the gates' connections; an update that
      passes runs the flow exactly as if there were no gates, on the store
      those connections left. */
  lemma GatesOnlyCancel(w: World, s: Exchange.Session, userId: int, ev: Exchange.Event, db: Store.Db, env: Exchange.Env)
    requires Exchange.Ready(s, ev, db, env) && Exchange.Matches(s, ev)
    requires Store.ListsChannels(w.channels, db)
    ensures var r := Handle(w, s, userId, ev, db, env);
      var g := Gates(w, AsUpdate(userId, ev), FlowHandler(s, ev), db);
      var db' := GatesStore(w, AsUpdate(userId, ev), FlowHandler(s, ev), db);
      && r.notices == g.notices
      && db'.(botStatus := db.botStatus) == db
      && (g.verdict == Halt ==> r.outcome.session == s && r.outcome.db == db' && r.outcome.sent == [])
      && (g.verdict == Continue ==>
            Exchange.Ready(s, ev, db', env) && r.outcome == Exchange.Step(s, userId, ev, db', env))
  {
  }

  /** The two flows reuse handler names, so their steps share anti-flood
      buckets: choosing the fiat currency is throttled under one key in
      both flows, although it is the first choice in one and the second in
      the other. */
  lemma FlowsShareBuckets(x: string, d1: string, d2: string, kind: Kind)
    requires Exchange.Matches(Exchange.Active(Exchange.FiatToCrypto, Exchange.SelectSource), Exchange.Press(d1))
    requires Exchange.Matches(Exchange.Active(Exchange.CryptoToFiat, Exchange.SelectDest(x)), Exchange.Press(d2))
    ensures var k1 := Throttling.Key(Throttling.Defaults,
                                     Some(FlowHandler(Exchange.Active(Exchange.FiatToCrypto, Exchange.SelectSource), Exchange.Press(d1))), kind);
      var k2 := Throttling.Key(Throttling.Defaults,
                               Some(FlowHandler(Exchange.Active(Exchange.CryptoToFiat, Exchange.SelectDest(x)), Exchange.Press(d2))), kind);
      k1 == k2 == "antiflood__select_fiat_handler"
  {
  }

  /** Within one flow, different steps are throttled in different buckets. */
  lemma {:induction false} StepsOfOneFlowSeparate(s1: Exchange.Session, e1: Exchange.Event,
                                                  s2: Exchange.Session, e2: Exchange.Event, kind: Kind)
    requires s1.Active? && s2.Active? && s1.dir == s2.dir
    requires Exchange.Matches(s1, e1) && Exchange.Matches(s2, e2)
    ensures Throttling.Key(Throttling.Defaults, Some(FlowHandler(s1, e1)), kind)
         == Throttling.Key(Throttling.Defaults, Some(FlowHandler(s2, e2)), kind)
        <==> Exchange.StageIndex(s1.stage) == Exchange.StageIndex(s2.stage)
  {
    Throttling.DefaultKeysSeparateHandlers(Throttling.Defaults, Exchange.HandlerName(s1, e1), Exchange.HandlerName(s2, e2), kind);
  }

  /** After an admin switches the bot off, on any store, every non-admin
      flow update the bucket allows is cancelled with the disabled notice,
      and the session stays where it was. */
  lemma BotOffStopsFlows(w: World, adminId: int, s: Exchange.Session, userId: int, ev: Exchange.Event,
                         db: Store.Db, env: Exchange.Env)
    requires Access.IsAdminId(w.admins, adminId) && !Access.IsAdminId(w.admins, userId)
    requires Exchange.Matches(s, ev) && Store.ListsChannels(w.channels, db)
    ensures var db' := Admin.Handle(w.admins, adminId, Admin.ToggleStatus("bot_off"), db).1;
      Exchange.Ready(s, ev, db', env) && Answer(w, AsUpdate(userId, ev), FlowHandler(s, ev)).Allowed? ==>
        Handle(w, s, userId, ev, db', env) == Result(Exchange.Unhandled(s, db'), [BotDisabled])
  {
  }

  /** The recipients of a request are the ids configured in `ANKET_SEND`:
      with the variable holding a rendered list, Send notifies exactly
      those ids, in order, each with the same approve/reject buttons; with
      it unset nobody is notified. */
  lemma RequestsReachConfiguredIds(anket: Option<string>, ids: seq<int>, d: Exchange.Direction, st: Exchange.Stage,
                                   userId: int, db: Store.Db, env: Exchange.Env)
    requires (anket == None && ids == []) || (|ids| > 0 && anket == Some(Config.Render(ids)))
    requires Config.ExchangeRequestIds(anket).Success? && env.requestIds == Config.ExchangeRequestIds(anket).value
    requires st.Confirm?
    ensures var o := Exchange.Step(Exchange.Active(d, st), userId, Exchange.Press("send_request"), db, env);
      && |o.sent| == |ids|
      && forall k :: 0 <= k < |ids| ==>
        && o.sent[k].recipient == ids[k]
        && o.sent[k].keyboard == Keyboards.ExchangeRequestKeyboard(Text.IntToString(userId),
                                                                  Exchange.ExchangeId(st.source, st.dest),
                                                                  env.render(st.amount))
  {
    ConfiguredIds(anket, ids);
    var o := Exchange.Step(Exchange.Active(d, st), userId, Exchange.Press("send_request"), db, env);
    assert o == Exchange.Submit(d, st, userId, db, env);
    Exchange.SubmitNotifiesEveryRecipient(d, st, userId, db, env);
  }

  /** Both shapes of `ANKET_SEND` the recipients lemma covers read back as
      `ids`. */
  lemma ConfiguredIds(anket: Option<string>, ids: seq<int>)
    requires (anket == None && ids == []) || (|ids| > 0 && anket == Some(Config.Render(ids)))
    ensures Config.ExchangeRequestIds(anket) == Success(ids)
  {
    if anket == None {
      Config.RequestIdsRoundTrip([0]);
    } else {
      Config.RequestIdsRoundTrip(ids);
    }
  }
}
