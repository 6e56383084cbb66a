/** The admin panel's entry points: every one checks the sender against
    `ADMIN_IDS` first. Only the two bot-status entry points touch the store:
    each connects, which adds the 'on' status row when there is none, and
    the toggle then writes the requested status. */
module Admin {
  import opened Outcomes
  import Store
  import Keyboards
  import Config
  import Access
  import Updates
  import Seeding

  /** `is_admin(user_id)`: membership in the configured admin list. */
  predicate IsAdmin(admins: seq<int>, userId: int) {
    Access.IsAdminId(admins, userId)
  }

  /** The panel's entry points: three commands and five buttons. A status
      toggle carries its callback data, 'bot_on' or 'bot_off'. */
  datatype Entry =
    | AdminCommand | StatsCommand | BroadcastCommand
    | BackToAdmin | Statistics | BroadcastMenu | ChangeStatus
    | ToggleStatus(data: string)

  predicate WellFormed(e: Entry) {
    e.ToggleStatus? ==> e.data == "bot_on" || e.data == "bot_off"
  }

  datatype View =
    | Denied
    | Panel
    | StatisticsPeriods
    | BroadcastTypes
    | StatusView(current: string, keyboard: Keyboards.Keyboard)
    | StatusChanged(status: string, keyboard: Keyboards.Keyboard)

  /** The status the panel shows: the stored one, 'on' when there is none. */
  function CurrentStatus(db: Store.Db): (s: string)
    ensures db.botStatus.Some? ==> s == db.botStatus.value
    ensures db.botStatus.None? ==> s == "on"
  {
    var rows := Store.BotStatusRows(db);
    if |rows| > 0 then rows[0].1 else "on"
  }

  /** The status a toggle button asks for. */
  function Requested(data: string): (s: string)
    ensures s == "on" <==> data == "bot_on"
    ensures s != "on" ==> s == "off"
  {
    if data == "bot_on" then "on" else "off"
  }

  /** One entry point for one sender: a denial for a non-admin, otherwise
      the panel's answer and the store after it. */
  function Handle(admins: seq<int>, userId: int, e: Entry, db: Store.Db): (r: (View, Store.Db))
    requires WellFormed(e)
    ensures !IsAdmin(admins, userId) ==> r == (Denied, db)
    ensures r.1 != db ==> IsAdmin(admins, userId) && (e.ChangeStatus? || e.ToggleStatus?)
    ensures r.1.(botStatus := db.botStatus) == db
    ensures IsAdmin(admins, userId) && e.ChangeStatus? ==> r.1 == Store.Open(db)
    ensures IsAdmin(admins, userId) && e.ToggleStatus? ==> r.1.botStatus == Some(Requested(e.data))
  {
    if !IsAdmin(admins, userId) then (Denied, db)
    else
      match e
      case AdminCommand => (Panel, db)
      case BackToAdmin => (Panel, db)
      case StatsCommand => (StatisticsPeriods, db)
      case Statistics => (StatisticsPeriods, db)
      case BroadcastCommand => (BroadcastTypes, db)
      case BroadcastMenu => (BroadcastTypes, db)
      case ChangeStatus =>
        var db' := Store.Open(db);
        var current := CurrentStatus(db');
        (StatusView(current, Keyboards.BotStatusKeyboard(current)), db')
      case ToggleStatus(data) =>
        var status := Requested(data);
        (StatusChanged(status, Keyboards.BotStatusKeyboard(status)), Store.SetBotStatus(Store.Open(db), status))
  }

  // ---------------------------------------------------------------------
  // Properties
  // ---------------------------------------------------------------------

  /** The admins are exactly the ids listed in the environment variable. */
  lemma AdminsFromEnvironment(ids: seq<int>, userId: int)
    requires |ids| > 0
    ensures Config.AdminIds(Some(Config.Render(ids))).Success?
    ensures IsAdmin(Config.AdminIds(Some(Config.Render(ids))).value, userId) <==> userId in ids
  {
    Config.IdListRoundTrip(ids);
  }

  /** With the variable unset nobody passes any entry point. */
  lemma NoAdminsWhenUnset(userId: int, e: Entry, db: Store.Db)
    requires WellFormed(e)
    ensures Handle(Config.AdminIds(None).value, userId, e, db) == (Denied, db)
  {
    Config.UnsetIsEmpty(None);
  }

  /** A toggle writes the requested status into any store, one without a
      status row included, and the status view then shows it with the
      button for the opposite toggle. */
  lemma ToggleThenView(admins: seq<int>, userId: int, data: string, db: Store.Db)
    requires IsAdmin(admins, userId) && (data == "bot_on" || data == "bot_off")
    ensures var db' := Handle(admins, userId, ToggleStatus(data), db).1;
      && CurrentStatus(db') == Requested(data)
      && Handle(admins, userId, ChangeStatus, db').0.keyboard[0]
         == Keyboards.Callback(if data == "bot_on" then "bot_off" else "bot_on")
  {
  }

  /** Pressing the same toggle twice leaves the store as pressing it once. */
  lemma ToggleIdempotent(admins: seq<int>, userId: int, data: string, db: Store.Db)
    requires data == "bot_on" || data == "bot_off"
    ensures var once := Handle(admins, userId, ToggleStatus(data), db);
      Handle(admins, userId, ToggleStatus(data), once.1) == once
  {
  }

  /** The status the panel shows is 'off' exactly when the bot-status gate
      halts ordinary users. */
  lemma ViewAgreesWithGate(admins: seq<int>, u: Updates.Update, db: Store.Db)
    requires !Access.IsAdminId(admins, u.userId)
    ensures CurrentStatus(db) == "off" <==> Access.BotStatusGate(admins, u, db).verdict == Updates.Halt
  {
  }

  /** The seeding script creates no status row; an admin who opens the
      status screen and switches the bot off on such a store stops ordinary
      users all the same. */
  lemma SwitchOffSeededStore(admins: seq<int>, adminId: int, u: Updates.Update)
    requires IsAdmin(admins, adminId) && !IsAdmin(admins, u.userId)
    ensures Seeding.Seed(Store.EmptyDb()).botStatus.None?
    ensures var db0 := Seeding.Seed(Store.EmptyDb());
      var db1 := Handle(admins, adminId, ChangeStatus, db0).1;
      var db2 := Handle(admins, adminId, ToggleStatus("bot_off"), db1).1;
      && CurrentStatus(db1) == "on"
      && CurrentStatus(db2) == "off"
      && Access.BotStatusGate(admins, u, db2) == Updates.GateOut(Updates.Halt, [Updates.BotDisabled])
  {
  }
}
