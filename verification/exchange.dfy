/** The two exchange conversations, Fiat→Crypto and Crypto→Fiat, as one
    state machine parameterised by direction. The flows are the same handler
    code with the roles of the currencies swapped: the first selection is the
    SOURCE currency (the one the user gives, whose limits bound the amount),
    the second is the DESTINATION currency.

    A session is the per-user FSM context: no state at all, or a state of one
    group together with exactly the fields the handlers have stored so far. */
module Exchange {
  import opened Outcomes
  import Text
  import Store
  import Keyboards
  import States

  datatype Direction = FiatToCrypto | CryptoToFiat

  /** The currency type offered first, and whose limits bound the amount. */
  function SourceKind(d: Direction): string {
    if d == FiatToCrypto then "fiat" else "crypto"
  }

  /** The currency type offered second. */
  function DestKind(d: Direction): string {
    if d == FiatToCrypto then "crypto" else "fiat"
  }

  /** The payment-method type both flows ask for. */
  const MethodKind := "fiat"

  /** The callback data of the main-menu button that opens each flow. */
  function EntryData(d: Direction): string {
    if d == FiatToCrypto then "fiat_to_crypto" else "crypto_to_fiat"
  }

  /** Where a flow stands, with the fields stored so far. `details` is the
      wallet address (Fiat→Crypto) or the payment details (Crypto→Fiat). */
  datatype Stage =
    | SelectSource
    | SelectDest(source: string)
    | SelectMethod(source: string, dest: string)
    | EnterAmount(source: string, dest: string, payment: string)
    | EnterDetails(source: string, dest: string, payment: string, amount: real)
    | EnterComment(source: string, dest: string, payment: string, amount: real, details: string)
    | Confirm(source: string, dest: string, payment: string, amount: real, details: string, comment: string)

  datatype Session = Idle | Active(dir: Direction, stage: Stage)

  /** Position of a stage in its group's declaration order. */
  function StageIndex(s: Stage): (k: nat)
    ensures k < 7
  {
    match s
    case SelectSource => 0
    case SelectDest(_) => 1
    case SelectMethod(_, _) => 2
    case EnterAmount(_, _, _) => 3
    case EnterDetails(_, _, _, _) => 4
    case EnterComment(_, _, _, _, _) => 5
    case Confirm(_, _, _, _, _, _) => 6
  }

  function Group(d: Direction): seq<StateName>
  {
    if d == FiatToCrypto then States.FiatToCryptoStates else States.CryptoToFiatStates
  }

  type StateName = States.StateName

  /** The aiogram state a session is in, `None` when no state is set. */
  function StateOf(s: Session): Option<(Direction, StateName)> {
    match s
    case Idle => None
    case Active(d, st) => Some((d, Group(d)[StageIndex(st)]))
  }

  // ---------------------------------------------------------------------
  // Inputs and outputs of a handler
  // ---------------------------------------------------------------------

  /** An update as the handlers see it: a button press with its callback
      data, or a text message. */
  datatype Event = Press(data: string) | Message(text: string)

  /** The parts of the world a handler consults but this model does not
      define: Python's `float()` (partial) and `str()` of a float, the
      configured request recipients, which sends to them succeed, and the
      clock (ISO date and ISO week number). */
  datatype Env = Env(
    parse: string -> Option<real>,
    render: real -> string,
    requestIds: seq<int>,
    delivered: int -> bool,
    today: string,
    week: nat)

  /** What the user is shown. */
  datatype Reply =
    | NoReply
    | NoCurrencies(kind: string)          // the type had no currencies; contact the admin
    | CurrencyPrompt(kind: string, options: set<(string, string)>)
    | NoPaymentMethods
    | MethodPrompt(options: set<(string, string)>)
    | NoLimits
    | AskAmount(minAmount: string, maxAmount: string)
    | InvalidNumber
    | OutOfRange(lo: real, hi: real)
    | AskDetails
    | AskComment
    | Summary(keyboard: Keyboards.Keyboard)
    | Submitted

  /** One attempted notification of a request recipient. */
  datatype Delivery = Delivery(recipient: int, keyboard: Keyboards.Keyboard, delivered: bool)

  /** The result of one handler: next session, next store, the reply, and
      the notifications attempted. */
  datatype Outcome = Outcome(session: Session, db: Store.Db, reply: Reply, sent: seq<Delivery>)

  /** No handler matched: nothing happens. */
  function Unhandled(s: Session, db: Store.Db): Outcome {
    Outcome(s, db, NoReply, [])
  }

  // ---------------------------------------------------------------------
  // Handlers
  // ---------------------------------------------------------------------

  /** The entry handler: offer the source currencies, or stay out of the
      flow with a message when there are none. Its connection to the store
      is the only write. */
  function Open(d: Direction, db: Store.Db): (o: Outcome)
    ensures o.db == Store.Open(db) && o.sent == []
    ensures o.session == Idle <==> Store.CurrenciesByType(db, SourceKind(d)) == {}
    ensures o.session != Idle ==> o.session == Active(d, SelectSource)
    ensures o.session == Idle ==> o.reply == NoCurrencies(SourceKind(d))
  {
    var db' := Store.Open(db);
    var options := Store.CurrenciesByType(db', SourceKind(d));
    if options == {} then Outcome(Idle, db', NoCurrencies(SourceKind(d)), [])
    else Outcome(Active(d, SelectSource), db', CurrencyPrompt(SourceKind(d), options), [])
  }

  /** The first selection: store the source currency, then offer the
      destination currencies, or finish when there are none. */
  function ChooseSource(d: Direction, data: string, db: Store.Db): (o: Outcome)
    ensures o.db == Store.Open(db) && o.sent == []
    ensures o.session == Idle <==> Store.CurrenciesByType(db, DestKind(d)) == {}
    ensures o.session != Idle ==>
      o.session == Active(d, SelectDest(Keyboards.Selected(data, Keyboards.CurrencyPrefix)))
  {
    var source := Keyboards.Selected(data, Keyboards.CurrencyPrefix);
    var db' := Store.Open(db);
    var options := Store.CurrenciesByType(db', DestKind(d));
    if options == {} then Outcome(Idle, db', NoCurrencies(DestKind(d)), [])
    else Outcome(Active(d, SelectDest(source)), db', CurrencyPrompt(DestKind(d), options), [])
  }

  /** The second selection: store the destination currency, then offer the
      'fiat' payment methods, or finish when there are none. */
  function ChooseDest(d: Direction, source: string, data: string, db: Store.Db): (o: Outcome)
    ensures o.db == Store.Open(db) && o.sent == []
    ensures o.session == Idle <==> Store.PaymentMethodsByType(db, MethodKind) == {}
    ensures o.session != Idle ==>
      o.session == Active(d, SelectMethod(source, Keyboards.Selected(data, Keyboards.CurrencyPrefix)))
  {
    var dest := Keyboards.Selected(data, Keyboards.CurrencyPrefix);
    var db' := Store.Open(db);
    var options := Store.PaymentMethodsByType(db', MethodKind);
    if options == {} then Outcome(Idle, db', NoPaymentMethods, [])
    else Outcome(Active(d, SelectMethod(source, dest)), db', MethodPrompt(options), [])
  }

  /** The payment-method selection: store the method, then show the source
      currency's limits and ask for the amount, or finish when the source
      currency has no row. */
  function ChooseMethod(d: Direction, source: string, dest: string, data: string, db: Store.Db): (o: Outcome)
    ensures o.db == Store.Open(db) && o.sent == []
    ensures o.session == Idle <==> source !in db.currencies
    ensures o.session != Idle ==>
      && o.session == Active(d, EnterAmount(source, dest, Keyboards.Selected(data, Keyboards.PaymentPrefix)))
      && o.reply == AskAmount(db.currencies[source].minAmount, db.currencies[source].maxAmount)
  {
    var payment := Keyboards.Selected(data, Keyboards.PaymentPrefix);
    var db' := Store.Open(db);
    var limits := Store.CurrencyLimits(db', source);
    if limits == [] then Outcome(Idle, db', NoLimits, [])
    else Outcome(Active(d, EnterAmount(source, dest, payment)), db', AskAmount(limits[0].0, limits[0].1), [])
  }

  /** The source currency's row is still there whenever the amount handler
      gets as far as reading it (the code indexes the first row without
      checking). */
  predicate LimitsReadable(source: string, text: string, db: Store.Db, env: Env) {
    env.parse(Text.Strip(text)).Some? ==> source in db.currencies
  }

  /** The amount handler: parse the text, re-read the source currency's
      bounds, and advance only with an amount inside them. A text or a bound
      that does not parse gives "enter a valid number"; an amount outside
      the bounds restates them; either way the session stays as it was.
      The store is connected to only once the text has parsed. */
  function EnterAmountStep(d: Direction, st: Stage, text: string, db: Store.Db, env: Env): (o: Outcome)
    requires st.EnterAmount?
    requires LimitsReadable(st.source, text, db, env)
    ensures env.parse(Text.Strip(text)).None? ==> o.db == db
    ensures env.parse(Text.Strip(text)).Some? ==> o.db == Store.Open(db)
    ensures o.sent == []
    ensures o.session == Active(d, st) || o.session.Active?
    ensures o.session != Active(d, st) ==>
      exists a :: o.session == Active(d, EnterDetails(st.source, st.dest, st.payment, a))
  {
    match env.parse(Text.Strip(text))
    case None => Outcome(Active(d, st), db, InvalidNumber, [])
    case Some(amount) =>
      var db' := Store.Open(db);
      var limits := Store.CurrencyLimits(db', st.source);
      match (env.parse(limits[0].0), env.parse(limits[0].1))
      case (Some(lo), Some(hi)) =>
        if amount < lo || amount > hi then Outcome(Active(d, st), db', OutOfRange(lo, hi), [])
        else Outcome(Active(d, EnterDetails(st.source, st.dest, st.payment, amount)), db', AskDetails, [])
      case _ => Outcome(Active(d, st), db', InvalidNumber, [])
  }

  /** The wallet-address / payment-details handler: store the stripped text. */
  function EnterDetailsStep(d: Direction, st: Stage, text: string, db: Store.Db): (o: Outcome)
    requires st.EnterDetails?
    ensures o.db == db && o.sent == []
    ensures o.session == Active(d, EnterComment(st.source, st.dest, st.payment, st.amount, Text.Strip(text)))
  {
    Outcome(Active(d, EnterComment(st.source, st.dest, st.payment, st.amount, Text.Strip(text))), db, AskComment, [])
  }

  /** The comment handler: store the stripped text as it is ('none'
      included) and show the summary with Send and Cancel. */
  function EnterCommentStep(d: Direction, st: Stage, text: string, db: Store.Db): (o: Outcome)
    requires st.EnterComment?
    ensures o.db == db && o.sent == []
    ensures o.session == Active(d, Confirm(st.source, st.dest, st.payment, st.amount, st.details, Text.Strip(text)))
    ensures o.reply == Summary(Keyboards.SendToAdmin)
  {
    var comment := Text.Strip(text);
    Outcome(Active(d, Confirm(st.source, st.dest, st.payment, st.amount, st.details, comment)), db,
            Summary(Keyboards.SendToAdmin), [])
  }

  /** The exchange id carried by the approve/reject buttons:
      `{source}_{dest}` in both flows. */
  function ExchangeId(source: string, dest: string): string {
    source + "_" + dest
  }

  /** The pair label of the history row: `{source} → {dest}`. */
  function PairLabel(source: string, dest: string): string {
    source + " \U{2192} " + dest
  }

  /** One notification per configured recipient, in order, each carrying the
      same approve/reject keyboard; a failed send is recorded and the loop
      goes on. */
  function Notify(recipients: seq<int>, keyboard: Keyboards.Keyboard, delivered: int -> bool): (sent: seq<Delivery>)
    ensures |sent| == |recipients|
    ensures forall k :: 0 <= k < |recipients| ==>
      sent[k] == Delivery(recipients[k], keyboard, delivered(recipients[k]))
  {
    if |recipients| == 0 then []
    else [Delivery(recipients[0], keyboard, delivered(recipients[0]))] + Notify(recipients[1..], keyboard, delivered)
  }

  /** The Send handler: finish the session, notify every recipient, and
      append one history row, whatever the sends did. */
  function Submit(d: Direction, st: Stage, userId: int, db: Store.Db, env: Env): (o: Outcome)
    requires st.Confirm?
    ensures o.session == Idle && o.reply == Submitted
    ensures |o.sent| == |env.requestIds|
    ensures forall k :: 0 <= k < |o.sent| ==> o.sent[k].recipient == env.requestIds[k]
    ensures o.db == Store.AddExchangeHistory(Store.Open(db), env.render(st.amount), Text.IntToString(userId),
                                             PairLabel(st.source, st.dest), env.today, env.week)
  {
    var amountText := env.render(st.amount);
    var keyboard := Keyboards.ExchangeRequestKeyboard(Text.IntToString(userId), ExchangeId(st.source, st.dest), amountText);
    var sent := Notify(env.requestIds, keyboard, env.delivered);
    var db' := Store.AddExchangeHistory(Store.Open(db), amountText, Text.IntToString(userId),
                                        PairLabel(st.source, st.dest), env.today, env.week);
    Outcome(Idle, db', Submitted, sent)
  }

  // ---------------------------------------------------------------------
  // Dispatch
  // ---------------------------------------------------------------------

  /** The precondition the source leaves to luck: when an amount parses,
      the source currency's limits can be read. */
  predicate Ready(s: Session, ev: Event, db: Store.Db, env: Env) {
    s.Active? && s.stage.EnterAmount? && ev.Message? ==> LimitsReadable(s.stage.source, ev.text, db, env)
  }

  /** Whether some flow handler is registered for this update in this
      session. Every flow handler is registered for one state and, for
      buttons, a data filter; the entry buttons are registered without a
      state and so only match a user with none. */
  predicate Matches(s: Session, ev: Event) {
    match s
    case Idle => ev == Press(EntryData(FiatToCrypto)) || ev == Press(EntryData(CryptoToFiat))
    case Active(_, st) =>
      match st
      case SelectSource => ev.Press? && Text.StartsWith(ev.data, Keyboards.CurrencyPrefix)
      case SelectDest(_) => ev.Press? && Text.StartsWith(ev.data, Keyboards.CurrencyPrefix)
      case SelectMethod(_, _) => ev.Press? && Text.StartsWith(ev.data, Keyboards.PaymentPrefix)
      case Confirm(_, _, _, _, _, _) => ev == Press("send_request")
      case _ => ev.Message?
  }

  /** The Python name of the handler that takes the update. The two files
      reuse names: the handler of the first selection in one flow has the
      name of the second selection's handler in the other. */
  function HandlerName(s: Session, ev: Event): string
    requires Matches(s, ev)
  {
    match s
    case Idle => if ev == Press(EntryData(FiatToCrypto)) then "fiat_to_crypto_handler" else "crypto_to_fiat_handler"
    case Active(d, st) =>
      match st
      case SelectSource => if d == FiatToCrypto then "select_fiat_handler" else "select_crypto_handler"
      case SelectDest(_) => if d == FiatToCrypto then "select_crypto_handler" else "select_fiat_handler"
      case SelectMethod(_, _) => "select_payment_method_handler"
      case EnterAmount(_, _, _) => "enter_amount_handler"
      case EnterDetails(_, _, _, _) =>
        if d == FiatToCrypto then "enter_wallet_address_handler" else "enter_payment_details_handler"
      case EnterComment(_, _, _, _, _) => "enter_comment_handler"
      case Confirm(_, _, _, _, _, _) => "send_request_handler"
  }

  /** Routing of one update for one user: the matching handler's transition,
      or nothing at all when no handler matches. */
  function Step(s: Session, userId: int, ev: Event, db: Store.Db, env: Env): (o: Outcome)
    requires Ready(s, ev, db, env)
  {
    if !Matches(s, ev) then Unhandled(s, db)
    else
      match s
      case Idle =>
        if ev == Press(EntryData(FiatToCrypto)) then Open(FiatToCrypto, db) else Open(CryptoToFiat, db)
      case Active(d, st) =>
        match st
        case SelectSource => ChooseSource(d, ev.data, db)
        case SelectDest(source) => ChooseDest(d, source, ev.data, db)
        case SelectMethod(source, dest) => ChooseMethod(d, source, dest, ev.data, db)
        case EnterAmount(_, _, _) => EnterAmountStep(d, st, ev.text, db, env)
        case EnterDetails(_, _, _, _) => EnterDetailsStep(d, st, ev.text, db)
        case EnterComment(_, _, _, _, _) => EnterCommentStep(d, st, ev.text, db)
        case Confirm(_, _, _, _, _, _) => Submit(d, st, userId, db, env)
  }

  // ---------------------------------------------------------------------
  // Properties of the machine
  // ---------------------------------------------------------------------

  /** `later` carries every field `earlier` had, with the same values. */
  predicate Extends(later: Stage, earlier: Stage) {
    && StageIndex(later) >= StageIndex(earlier)
    && (StageIndex(earlier) >= 1 ==> later.source == earlier.source)
    && (StageIndex(earlier) >= 2 ==> later.dest == earlier.dest)
    && (StageIndex(earlier) >= 3 ==> later.payment == earlier.payment)
    && (StageIndex(earlier) >= 4 ==> later.amount == earlier.amount)
    && (StageIndex(earlier) >= 5 ==> later.details == earlier.details)
  }

  /** The flows are linear: one update either changes nothing, ends the
      session, enters the first state from none, or advances exactly one
      state in the same flow keeping every field already collected. */
  lemma StepIsLinear(s: Session, userId: int, ev: Event, db: Store.Db, env: Env)
    requires Ready(s, ev, db, env)
    ensures var s' := Step(s, userId, ev, db, env).session;
      || s' == s
      || s' == Idle
      || (s == Idle && s'.Active? && s'.stage == SelectSource)
      || (s.Active? && s'.Active? && s'.dir == s.dir
          && StageIndex(s'.stage) == StageIndex(s.stage) + 1 && Extends(s'.stage, s.stage))
  {
  }

  /** A handler's connection adds the status row when it is missing; apart
      from that the store changes only by a Send in `confirm`, and then by
      exactly one appended history row. */
  lemma StepWritesOnlyHistory(s: Session, userId: int, ev: Event, db: Store.Db, env: Env)
    requires Ready(s, ev, db, env)
    ensures var o := Step(s, userId, ev, db, env);
      || ((o.db == db || o.db == Store.Open(db)) && o.sent == [])
      || (s.Active? && s.stage.Confirm? && ev == Press("send_request")
          && o.db.(history := db.history) == Store.Open(db)
          && |o.db.history| == |db.history| + 1
          && o.db.history[..|db.history|] == db.history)
  {
    if Matches(s, ev) && s.Active? && s.stage.Confirm? {
      var o := Submit(s.dir, s.stage, userId, db, env);
      assert Step(s, userId, ev, db, env) == o;
      assert o.db.(history := db.history) == Store.Open(db);
    }
  }

  /** Cancel on the summary sends 'menu'; no flow handler takes it, so the
      session and the store stay as they were. */
  lemma CancelKeepsSession(s: Session, userId: int, db: Store.Db, env: Env)
    requires s.Active?
    ensures Keyboards.SendToAdmin[1] == Keyboards.Callback("menu")
    ensures Step(s, userId, Press("menu"), db, env) == Unhandled(s, db)
  {
    assert !Text.StartsWith("menu", Keyboards.CurrencyPrefix) by {
      assert "menu"[0] != Keyboards.CurrencyPrefix[0];
    }
    assert !Text.StartsWith("menu", Keyboards.PaymentPrefix) by {
      assert "menu"[0] != Keyboards.PaymentPrefix[0];
    }
  }

  /** A second Send after a successful one finds no session: no second row
      and no second round of notifications. */
  lemma DoubleSubmitHarmless(s: Session, userId: int, db: Store.Db, env: Env)
    requires s.Active? && s.stage.Confirm?
    ensures var o := Step(s, userId, Press("send_request"), db, env);
      o.session == Idle
      && Step(o.session, userId, Press("send_request"), o.db, env) == Unhandled(Idle, o.db)
  {
  }

  /** The entry buttons do nothing while a flow is in progress: they are
      registered for users with no state. */
  lemma EntryIgnoredMidFlow(s: Session, userId: int, d: Direction, db: Store.Db, env: Env)
    requires s.Active?
    ensures Step(s, userId, Press(EntryData(d)), db, env) == Unhandled(s, db)
  {
    var data := EntryData(d);
    assert data[0] != Keyboards.PaymentPrefix[0];
    if d == FiatToCrypto {
      assert data[0] != Keyboards.CurrencyPrefix[0];
    } else {
      assert data[1] != Keyboards.CurrencyPrefix[1];
    }
  }

  /** Amount validation accepts exactly the closed interval of the source
      currency's bounds, read from the store at that moment, and never
      advances otherwise. */
  lemma AmountAcceptsExactlyInterval(d: Direction, st: Stage, text: string, db: Store.Db, env: Env,
                                     amount: real, lo: real, hi: real)
    requires st.EnterAmount? && st.source in db.currencies
    requires env.parse(Text.Strip(text)) == Some(amount)
    requires env.parse(db.currencies[st.source].minAmount) == Some(lo)
    requires env.parse(db.currencies[st.source].maxAmount) == Some(hi)
    ensures var o := Step(Active(d, st), 0, Message(text), db, env);
      && (lo <= amount <= hi <==> o.session == Active(d, EnterDetails(st.source, st.dest, st.payment, amount)))
      && (!(lo <= amount <= hi) <==> o.session == Active(d, st))
      && (!(lo <= amount <= hi) ==> o.reply == OutOfRange(lo, hi))
  {
  }

  /** Text that does not parse as a number, or a bound that does not, leaves
      the state and every collected field unchanged; text that does not
      parse does not even connect to the store. */
  lemma UnparsableAmountKeepsSession(d: Direction, st: Stage, text: string, db: Store.Db, env: Env)
    requires st.EnterAmount? && LimitsReadable(st.source, text, db, env)
    requires env.parse(Text.Strip(text)).None?
          || (st.source in db.currencies
              && (env.parse(db.currencies[st.source].minAmount).None?
                  || env.parse(db.currencies[st.source].maxAmount).None?))
    ensures var o := Step(Active(d, st), 0, Message(text), db, env);
      && o.session == Active(d, st) && o.reply == InvalidNumber && o.sent == []
      && (env.parse(Text.Strip(text)).None? ==> o.db == db)
  {
  }

  /** Bounds are read afresh: two stores that differ only in the source
      currency's bounds can decide the same amount differently, and the
      decision depends on nothing else in the store. */
  lemma AmountDependsOnlyOnCurrentBounds(d: Direction, st: Stage, text: string, db1: Store.Db, db2: Store.Db, env: Env)
    requires st.EnterAmount? && st.source in db1.currencies && st.source in db2.currencies
    requires db1.currencies[st.source].minAmount == db2.currencies[st.source].minAmount
    requires db1.currencies[st.source].maxAmount == db2.currencies[st.source].maxAmount
    ensures Step(Active(d, st), 0, Message(text), db1, env).session
         == Step(Active(d, st), 0, Message(text), db2, env).session
  {
    var o1 := EnterAmountStep(d, st, text, db1, env);
    var o2 := EnterAmountStep(d, st, text, db2, env);
    assert Step(Active(d, st), 0, Message(text), db1, env) == o1;
    assert Step(Active(d, st), 0, Message(text), db2, env) == o2;
    if env.parse(Text.Strip(text)).Some? {
      assert Store.CurrencyLimits(Store.Open(db1), st.source) == Store.CurrencyLimits(Store.Open(db2), st.source);
    }
  }

  /** Submitting appends exactly one row, whichever notifications fail:
      the store and session after Send do not depend on delivery. */
  lemma SubmitIndependentOfDelivery(d: Direction, st: Stage, userId: int, db: Store.Db, env: Env, delivered': int -> bool)
    requires st.Confirm?
    ensures var o1 := Step(Active(d, st), userId, Press("send_request"), db, env);
      var o2 := Step(Active(d, st), userId, Press("send_request"), db, env.(delivered := delivered'));
      && o1.session == o2.session == Idle
      && o1.db == o2.db
      && |o1.db.history| == |db.history| + 1
      && |o1.sent| == |o2.sent| == |env.requestIds|
  {
  }

  /** The row appended on Send records the rendered amount, the user id and
      the pair label, dated by the clock. */
  lemma SubmitHistoryRow(d: Direction, st: Stage, userId: int, db: Store.Db, env: Env)
    requires st.Confirm?
    ensures var o := Step(Active(d, st), userId, Press("send_request"), db, env);
      o.db.history == db.history + [Store.HistoryRow(env.render(st.amount), Text.IntToString(userId),
                                                     PairLabel(st.source, st.dest),
                                                     Store.DateStamp(env.today, env.week))]
  {
  }

  /** Every recipient is sent the same approve/reject buttons naming the
      user, `{source}_{dest}` and the rendered amount. */
  lemma SubmitNotifiesEveryRecipient(d: Direction, st: Stage, userId: int, db: Store.Db, env: Env)
    requires st.Confirm?
    ensures var o := Step(Active(d, st), userId, Press("send_request"), db, env);
      forall k :: 0 <= k < |o.sent| ==>
        o.sent[k].keyboard
          == Keyboards.ExchangeRequestKeyboard(Text.IntToString(userId), ExchangeId(st.source, st.dest), env.render(st.amount))
  {
  }

  /** Every handler answers the user; an update no handler takes gets no
      answer and changes nothing. */
  lemma ReplyIffMatched(s: Session, userId: int, ev: Event, db: Store.Db, env: Env)
    requires Ready(s, ev, db, env)
    ensures Step(s, userId, ev, db, env).reply != NoReply <==> Matches(s, ev)
    ensures !Matches(s, ev) ==> Step(s, userId, ev, db, env) == Unhandled(s, db)
  {
  }

  /** The state a session stands in determines its flow and stage number:
      two sessions are in the same aiogram state exactly when they are in
      the same flow at the same step. */
  lemma StateOfNamesStage(s1: Session, s2: Session)
    requires s1.Active? && s2.Active?
    ensures StateOf(s1) == StateOf(s2) <==> s1.dir == s2.dir && StageIndex(s1.stage) == StageIndex(s2.stage)
  {
    States.GroupsWellFormed();
    if StateOf(s1) == StateOf(s2) {
      var g := Group(s1.dir);
      assert g[StageIndex(s1.stage)] == g[StageIndex(s2.stage)];
    }
  }
}
