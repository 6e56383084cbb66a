/** The bot's SQLite database as an immutable value: one map per keyed
    table, a slot for each single-row table, and the append-only exchange
    history. Every `Database` method becomes a pure function from a store to
    its result and the next store. */
module Store {
  import opened Outcomes
  import Text

  /** A row of `users`; the flags are the 0/1 integers the code writes. */
  datatype User = User(
    fullName: string,
    username: Option<string>,
    banned: bool,
    active: bool,
    createdAt: string)

  /** A row of `currencies`; the bounds are kept as the decimal strings the
      table stores. */
  datatype Currency = Currency(kind: string, minAmount: string, maxAmount: string, details: string)

  /** A row of `exchange_history`; every column is text. */
  datatype HistoryRow = HistoryRow(amount: string, userId: string, exchange: string, date: string)

  /** The whole database. The banner and bot-status tables only ever hold
      the row with id '1', so each is a slot. */
  datatype Db = Db(
    users: map<int, User>,
    currencies: map<string, Currency>,
    paymentMethods: map<string, string>,   // name -> type
    channels: map<string, string>,         // channel id -> join URL
    banner: Option<string>,
    botStatus: Option<string>,
    history: seq<HistoryRow>)

  /** The fixed id of the single banner row and of the single status row. */
  const SingletonId := "1"

  function EmptyDb(): Db {
    Db(map[], map[], map[], map[], None, None, [])
  }

  /** Opening a connection creates the tables and inserts status 'on' under
      id '1'; that insert fails when the row exists, so an existing status
      is kept. */
  function Open(db: Db): (r: Db)
    ensures r.botStatus.Some?
    ensures db.botStatus.Some? ==> r == db
    ensures db.botStatus.None? ==> r == db.(botStatus := Some("on"))
  {
    if db.botStatus.Some? then db else db.(botStatus := Some("on"))
  }

  // ---------------------------------------------------------------------
  // Users
  // ---------------------------------------------------------------------

  /** INSERT of a fresh user, not banned and active; the primary key makes a
      second insert of the same id fail with the row left as it was. */
  function AddUser(db: Db, id: int, fullName: string, username: Option<string>, now: string): (r: (bool, Db))
    ensures r.0 <==> id !in db.users
    ensures r.0 ==> r.1 == db.(users := db.users[id := User(fullName, username, false, true, now)])
    ensures !r.0 ==> r.1 == db
  {
    if id in db.users then (false, db)
    else (true, db.(users := db.users[id := User(fullName, username, false, true, now)]))
  }

  /** UPDATE of one user's ban flag; an unknown id matches no row. */
  function SetBanned(db: Db, id: int, banned: bool): (r: Db)
    ensures r.users.Keys == db.users.Keys
    ensures id in db.users ==> r.users[id] == db.users[id].(banned := banned)
    ensures forall u :: u in db.users && u != id ==> r.users[u] == db.users[u]
    ensures r.(users := db.users) == db
  {
    if id in db.users then db.(users := db.users[id := db.users[id].(banned := banned)]) else db
  }

  function BanUser(db: Db, id: int): Db {
    SetBanned(db, id, true)
  }

  function UnbanUser(db: Db, id: int): Db {
    SetBanned(db, id, false)
  }

  /** `result and result[0] == 1`: false for an id with no row. */
  predicate IsUserBanned(db: Db, id: int) {
    id in db.users && db.users[id].banned
  }

  /** UPDATE of one user's active flag. */
  function DeactivateUser(db: Db, id: int): (r: Db)
    ensures r.users.Keys == db.users.Keys
    ensures id in db.users ==> r.users[id] == db.users[id].(active := false)
    ensures forall u :: u in db.users && u != id ==> r.users[u] == db.users[u]
    ensures r.(users := db.users) == db
  {
    if id in db.users then db.(users := db.users[id := db.users[id].(active := false)]) else db
  }

  /** `SELECT id, is_active FROM users`, as a set since no order is asked for. */
  function UserStats(db: Db): (r: set<(int, bool)>)
    ensures forall id, a :: (id, a) in r <==> id in db.users && db.users[id].active == a
  {
    set id | id in db.users :: (id, db.users[id].active)
  }

  /** After deactivating a known user, the statistics show that user
      inactive and every other user as before; an unknown id changes
      nothing. */
  lemma DeactivateThenStats(db: Db, id: int)
    ensures id in db.users ==> UserStats(DeactivateUser(db, id)) == UserStats(db) - {(id, true)} + {(id, false)}
    ensures id !in db.users ==> UserStats(DeactivateUser(db, id)) == UserStats(db)
  {
    var after := UserStats(DeactivateUser(db, id));
    if id in db.users {
      var expected := UserStats(db) - {(id, true)} + {(id, false)};
      forall p | p in after ensures p in expected {
      }
      forall p | p in expected ensures p in after {
      }
    }
  }

  // ---------------------------------------------------------------------
  // Bot status and banner
  // ---------------------------------------------------------------------

  /** `SELECT * FROM bot_status`: the status row, if any. */
  function BotStatusRows(db: Db): (r: seq<(string, string)>)
    ensures |r| <= 1
    ensures |r| == 1 <==> db.botStatus.Some?
  {
    if db.botStatus.Some? then [(SingletonId, db.botStatus.value)] else []
  }

  /** UPDATE of the row with id '1'; without that row nothing changes. */
  function SetBotStatus(db: Db, status: string): (r: Db)
    ensures db.botStatus.Some? ==> r.botStatus == Some(status)
    ensures db.botStatus.None? ==> r == db
    ensures r.(botStatus := db.botStatus) == db
  {
    if db.botStatus.Some? then db.(botStatus := Some(status)) else db
  }

  /** `SELECT * FROM banners`: at most the one row with id '1'. */
  function BannerRows(db: Db): (r: seq<(string, string)>)
    ensures |r| <= 1
    ensures |r| == 1 <==> db.banner.Some?
  {
    if db.banner.Some? then [(SingletonId, db.banner.value)] else []
  }

  /** `manage_banner(action, text)`: 'add' with non-empty text inserts the
      banner under id '1' (failing when one exists), 'remove' deletes it,
      anything else reports failure. */
  function ManageBanner(db: Db, action: string, text: Option<string>): (r: (bool, Db))
    ensures r.1.(banner := db.banner) == db
    ensures action == "add" && Text.Truthy(text) ==>
      (r.0 <==> db.banner.None?) && r.1.banner == (if r.0 then text else db.banner)
    ensures action == "remove" ==> r.0 && r.1.banner.None?
    ensures !(action == "add" && Text.Truthy(text)) && action != "remove" ==> !r.0 && r.1 == db
  {
    if action == "add" && Text.Truthy(text) then
      if db.banner.None? then (true, db.(banner := text)) else (false, db)
    else if action == "remove" then (true, db.(banner := None))
    else (false, db)
  }

  // ---------------------------------------------------------------------
  // Channels
  // ---------------------------------------------------------------------

  function AddChannel(db: Db, id: string, url: string): (r: (bool, Db))
    ensures r.0 <==> id !in db.channels
    ensures r.0 ==> r.1 == db.(channels := db.channels[id := url])
    ensures !r.0 ==> r.1 == db
  {
    if id in db.channels then (false, db) else (true, db.(channels := db.channels[id := url]))
  }

  function DeleteChannel(db: Db, id: string): (r: Db)
    ensures r.channels.Keys == db.channels.Keys - {id}
    ensures forall c :: c in r.channels ==> r.channels[c] == db.channels[c]
    ensures r.(channels := db.channels) == db
  {
    db.(channels := db.channels - {id})
  }

  /** `rows` is one listing of the channels table: every row once, in some
      order (the query has no ORDER BY). */
  predicate ListsChannels(rows: seq<(string, string)>, db: Db) {
    Lists(rows, db.channels)
  }

  /** `rows` holds every entry of `m` once. */
  predicate Lists(rows: seq<(string, string)>, m: map<string, string>) {
    && (forall k :: 0 <= k < |rows| ==> rows[k].0 in m && m[rows[k].0] == rows[k].1)
    && (forall id :: id in m ==> exists k :: 0 <= k < |rows| && rows[k].0 == id)
    && (forall j, k :: 0 <= j < k < |rows| ==> rows[j].0 != rows[k].0)
  }

  /** A listing is empty exactly when the table is. */
  lemma ListingEmptyIff(rows: seq<(string, string)>, db: Db)
    requires ListsChannels(rows, db)
    ensures rows == [] <==> db.channels == map[]
  {
    if rows == [] {
      assert forall id :: id !in db.channels;
      assert db.channels.Keys == {};
    } else {
      assert rows[0].0 in db.channels;
    }
  }

  /** Every table has a listing: the requirement that the gates read one
      excludes no store. */
  lemma ChannelsListable(db: Db)
    ensures exists rows :: ListsChannels(rows, db)
  {
    var rows := Listing(db.channels);
    assert ListsChannels(rows, db);
  }

  /** A listing of `m`, built by taking out one id at a time. */
  lemma {:induction false} Listing(m: map<string, string>) returns (rows: seq<(string, string)>)
    ensures Lists(rows, m)
    decreases |m|
  {
    if m == map[] {
      rows := [];
    } else {
      var id :| id in m;
      assert |m - {id}| < |m| by {
        assert (m - {id}).Keys == m.Keys - {id};
      }
      var rest := Listing(m - {id});
      ListingCons(id, rest, m);
      rows := [(id, m[id])] + rest;
    }
  }

  /** Putting an entry in front of a listing of the rest of the map lists
      the whole map. */
  lemma ListingCons(id: string, rest: seq<(string, string)>, m: map<string, string>)
    requires id in m && Lists(rest, m - {id})
    ensures Lists([(id, m[id])] + rest, m)
  {
    var rows := [(id, m[id])] + rest;
    forall k | 1 <= k < |rows|
      ensures rows[k] == rest[k - 1] && rows[k].0 != id
      ensures rows[k].0 in m && m[rows[k].0] == rows[k].1
    {
      assert rest[k - 1].0 in m - {id};
    }
    forall other | other in m
      ensures exists k :: 0 <= k < |rows| && rows[k].0 == other
    {
      if other == id {
        assert rows[0].0 == other;
      } else {
        assert other in m - {id};
        var k :| 0 <= k < |rest| && rest[k].0 == other;
        assert rows[k + 1].0 == other;
      }
    }
  }

  // ---------------------------------------------------------------------
  // Currencies
  // ---------------------------------------------------------------------

  function AddCurrency(db: Db, name: string, kind: string, minAmount: string, maxAmount: string, details: string): (r: (bool, Db))
    ensures r.0 <==> name !in db.currencies
    ensures r.0 ==> r.1 == db.(currencies := db.currencies[name := Currency(kind, minAmount, maxAmount, details)])
    ensures !r.0 ==> r.1 == db
  {
    if name in db.currencies then (false, db)
    else (true, db.(currencies := db.currencies[name := Currency(kind, minAmount, maxAmount, details)]))
  }

  function DeleteCurrency(db: Db, name: string): (r: Db)
    ensures r.currencies.Keys == db.currencies.Keys - {name}
    ensures forall c :: c in r.currencies ==> r.currencies[c] == db.currencies[c]
    ensures r.(currencies := db.currencies) == db
  {
    db.(currencies := db.currencies - {name})
  }

  /** `SELECT name, type FROM currencies WHERE type = ?`. */
  function CurrenciesByType(db: Db, kind: string): (r: set<(string, string)>)
    ensures forall row :: row in r ==> row.1 == kind
    ensures forall n :: (n, kind) in r <==> n in db.currencies && db.currencies[n].kind == kind
  {
    set n | n in db.currencies && db.currencies[n].kind == kind :: (n, kind)
  }

  /** `SELECT details FROM currencies WHERE name = ?`. */
  function CurrencyDetails(db: Db, name: string): (r: seq<string>)
    ensures |r| <= 1 && (|r| == 1 <==> name in db.currencies)
    ensures |r| == 1 ==> r[0] == db.currencies[name].details
  {
    if name in db.currencies then [db.currencies[name].details] else []
  }

  /** `SELECT min_amount, max_amount FROM currencies WHERE name = ?`. */
  function CurrencyLimits(db: Db, name: string): (r: seq<(string, string)>)
    ensures |r| <= 1 && (|r| == 1 <==> name in db.currencies)
    ensures |r| == 1 ==> r[0] == (db.currencies[name].minAmount, db.currencies[name].maxAmount)
  {
    if name in db.currencies then [(db.currencies[name].minAmount, db.currencies[name].maxAmount)] else []
  }

  // ---------------------------------------------------------------------
  // Payment methods
  // ---------------------------------------------------------------------

  function AddPaymentMethod(db: Db, name: string, kind: string): (r: (bool, Db))
    ensures r.0 <==> name !in db.paymentMethods
    ensures r.0 ==> r.1 == db.(paymentMethods := db.paymentMethods[name := kind])
    ensures !r.0 ==> r.1 == db
  {
    if name in db.paymentMethods then (false, db)
    else (true, db.(paymentMethods := db.paymentMethods[name := kind]))
  }

  function DeletePaymentMethod(db: Db, name: string): (r: Db)
    ensures r.paymentMethods.Keys == db.paymentMethods.Keys - {name}
    ensures forall m :: m in r.paymentMethods ==> r.paymentMethods[m] == db.paymentMethods[m]
    ensures r.(paymentMethods := db.paymentMethods) == db
  {
    db.(paymentMethods := db.paymentMethods - {name})
  }

  /** `SELECT * FROM payment_methods WHERE type = ?`. */
  function PaymentMethodsByType(db: Db, kind: string): (r: set<(string, string)>)
    ensures forall row :: row in r ==> row.1 == kind
    ensures forall n :: (n, kind) in r <==> n in db.paymentMethods && db.paymentMethods[n] == kind
  {
    set n | n in db.paymentMethods && db.paymentMethods[n] == kind :: (n, kind)
  }

  // ---------------------------------------------------------------------
  // Exchange history
  // ---------------------------------------------------------------------

  /** The history date column: the ISO date, a dash, the ISO week number. */
  function DateStamp(today: string, week: nat): (d: string)
    ensures |d| > |today| + 1
    ensures d[..|today|] == today && d[|today|] == '-'
    ensures Text.AllDigits(d[|today| + 1..])
  {
    var d := today + "-" + Text.NatToString(week);
    assert d[|today| + 1..] == Text.NatToString(week);
    d
  }

  /** INSERT of one history row. The values are already rendered as text
      (`str(amount)`, `str(user_id)`); the date and week come from the clock. */
  function AddExchangeHistory(db: Db, amount: string, userId: string, exchange: string, today: string, week: nat): (r: Db)
    ensures |r.history| == |db.history| + 1
    ensures r.history[..|db.history|] == db.history
    ensures r.history[|db.history|] == HistoryRow(amount, userId, exchange, DateStamp(today, week))
    ensures r.(history := db.history) == db
  {
    db.(history := db.history + [HistoryRow(amount, userId, exchange, DateStamp(today, week))])
  }

  // ---------------------------------------------------------------------
  // Properties relating several operations
  // ---------------------------------------------------------------------

  /** Reopening the database never resets the status, 'off' included. */
  lemma OpenKeepsStatus(db: Db)
    ensures Open(Open(db)) == Open(db)
    ensures db.botStatus == Some("off") ==> Open(db).botStatus == Some("off")
    ensures db.botStatus.None? ==> Open(db).botStatus == Some("on")
  {
  }

  /** A repeated `add_user` fails and keeps the first row, ban flag included. */
  lemma AddUserKeepsExisting(db: Db, id: int, name: string, username: Option<string>, now: string,
                             name2: string, username2: Option<string>, now2: string)
    requires id in db.users
    ensures AddUser(db, id, name2, username2, now2) == (false, db)
    ensures IsUserBanned(AddUser(db, id, name2, username2, now2).1, id) == IsUserBanned(db, id)
  {
  }

  /** Ban and unban decide the banned check for a known user and leave every
      other user's answer alone. */
  lemma BanUnbanDecide(db: Db, id: int, other: int)
    requires other != id
    ensures IsUserBanned(BanUser(db, id), id) <==> id in db.users
    ensures !IsUserBanned(UnbanUser(db, id), id)
    ensures IsUserBanned(BanUser(db, id), other) == IsUserBanned(db, other)
    ensures IsUserBanned(UnbanUser(db, id), other) == IsUserBanned(db, other)
  {
  }

  /** A freshly added user is not banned. */
  lemma NewUserNotBanned(db: Db, id: int, name: string, username: Option<string>, now: string)
    requires id !in db.users
    ensures !IsUserBanned(AddUser(db, id, name, username, now).1, id)
    ensures AddUser(db, id, name, username, now).1.users[id].active
  {
  }

  /** Adding then deleting a currency under a fresh name restores the store. */
  lemma AddDeleteCurrency(db: Db, name: string, kind: string, lo: string, hi: string, details: string)
    requires name !in db.currencies
    ensures DeleteCurrency(AddCurrency(db, name, kind, lo, hi, details).1, name) == db
  {
    var r := AddCurrency(db, name, kind, lo, hi, details).1;
    assert DeleteCurrency(r, name).currencies == db.currencies;
  }

  /** Adding then deleting a payment method under a fresh name restores the store. */
  lemma AddDeletePaymentMethod(db: Db, name: string, kind: string)
    requires name !in db.paymentMethods
    ensures DeletePaymentMethod(AddPaymentMethod(db, name, kind).1, name) == db
  {
    var r := AddPaymentMethod(db, name, kind).1;
    assert DeletePaymentMethod(r, name).paymentMethods == db.paymentMethods;
  }

  /** Adding then deleting a channel under a fresh id restores the store. */
  lemma AddDeleteChannel(db: Db, id: string, url: string)
    requires id !in db.channels
    ensures DeleteChannel(AddChannel(db, id, url).1, id) == db
  {
    var r := AddChannel(db, id, url).1;
    assert DeleteChannel(r, id).channels == db.channels;
  }

  /** Adding a banner then removing it restores a store that had none; a
      second add while one exists fails. */
  lemma BannerAddRemove(db: Db, text: string, other: string)
    requires db.banner.None? && |text| > 0 && |other| > 0
    ensures ManageBanner(ManageBanner(db, "add", Some(text)).1, "remove", None).1 == db
    ensures ManageBanner(ManageBanner(db, "add", Some(text)).1, "add", Some(other)) == (false, ManageBanner(db, "add", Some(text)).1)
  {
  }

  /** History only grows: the rows before a series of appends stay as they were. */
  lemma HistoryAppendOnly(db: Db, a1: string, u1: string, e1: string, a2: string, u2: string, e2: string,
                          today: string, week: nat)
    ensures var r := AddExchangeHistory(AddExchangeHistory(db, a1, u1, e1, today, week), a2, u2, e2, today, week);
      |r.history| == |db.history| + 2 && r.history[..|db.history|] == db.history
  {
    var r1 := AddExchangeHistory(db, a1, u1, e1, today, week);
    var r2 := AddExchangeHistory(r1, a2, u2, e2, today, week);
    assert r2.history[..|r1.history|] == r1.history;
    assert r2.history[..|db.history|] == r2.history[..|r1.history|][..|db.history|];
  }
}
