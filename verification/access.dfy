/** The access middlewares: bot on/off, bans, required channel
    subscriptions and the exchange banner. Each lets the configured admins
    through untouched. */
module Access {
  import opened Updates
  import opened Outcomes
  import Store
  import Keyboards

  predicate IsAdminId(admins: seq<int>, userId: int) {
    userId in admins
  }

  /** Halts non-admins while the status row says 'off'. A non-admin's
      update connects to the store first, which adds an 'on' row when there
      is none, and reads the row from there. */
  function BotStatusGate(admins: seq<int>, u: Update, db: Store.Db): (g: GateOut)
    ensures g.verdict == Halt <==> !IsAdminId(admins, u.userId) && db.botStatus == Some("off")
    ensures g.verdict == Halt ==> g.notices == [BotDisabled]
    ensures g.verdict == Continue ==> g.notices == []
  {
    if IsAdminId(admins, u.userId) then Pass
    else
      var status := Store.BotStatusRows(Store.Open(db));
      if |status| > 0 && status[0].1 == "off" then GateOut(Halt, [BotDisabled]) else Pass
  }

  /** Halts banned non-admins, reading the flag through a connection. */
  function BanGate(admins: seq<int>, u: Update, db: Store.Db): (g: GateOut)
    ensures g.verdict == Halt <==> !IsAdminId(admins, u.userId) && u.userId in db.users && db.users[u.userId].banned
    ensures g.verdict == Halt ==> g.notices == [YouAreBanned]
    ensures g.verdict == Continue ==> g.notices == []
  {
    if IsAdminId(admins, u.userId) then Pass
    else if Store.IsUserBanned(Store.Open(db), u.userId) then GateOut(Halt, [YouAreBanned])
    else Pass
  }

  /** The membership lookup for one channel: a status such as 'member' or
      'left', or an error from the chat API. */
  datatype Membership = Member(status: string) | LookupFailed

  function Urls(rows: seq<(string, string)>): (urls: seq<string>)
    ensures |urls| == |rows|
    ensures forall k :: 0 <= k < |rows| ==> urls[k] == rows[k].1
  {
    seq(|rows|, k requires 0 <= k < |rows| => rows[k].1)
  }

  /** The prompt shown at channel `k`: a link to every channel checked so
      far, that one included. */
  function PromptAt(rows: seq<(string, string)>, k: nat): Notice
    requires k < |rows|
  {
    SubscribePrompt(Keyboards.ChannelSubscriptionKeyboard(Urls(rows[..k + 1])))
  }

  predicate HasLeft(rows: seq<(string, string)>, member: string -> Membership, k: nat)
    requires k < |rows|
  {
    member(rows[k].0) == Member("left")
  }

  /** The channel loop from channel `k` on. Each channel whose member status
      is 'left' gets a prompt and raises the cancel; a failed lookup is
      skipped. Whether that cancel leaves the loop is `cancelEscapes`:
      raised inside the `try`, it meets an `except Exception` that also
      catches the cancel when the framework's cancel is an `Exception`. */
  function Scan(rows: seq<(string, string)>, member: string -> Membership, cancelEscapes: bool, k: nat): (g: GateOut)
    requires k <= |rows|
    ensures g.verdict == Halt <==> cancelEscapes && exists j :: k <= j < |rows| && HasLeft(rows, member, j)
    ensures cancelEscapes ==> |g.notices| <= 1
    decreases |rows| - k
  {
    if k == |rows| then Pass
    else
      var rest := Scan(rows, member, cancelEscapes, k + 1);
      if HasLeft(rows, member, k) then
        if cancelEscapes then GateOut(Halt, [PromptAt(rows, k)])
        else GateOut(rest.verdict, [PromptAt(rows, k)] + rest.notices)
      else rest
  }

  /** The subscription gate. A non-admin's update reads the channels table
      of `db`, `rows` being the listing the query returns, and lets the
      update through when it is empty; otherwise the channel loop runs. */
  function SubscriptionGate(admins: seq<int>, u: Update, db: Store.Db, rows: seq<(string, string)>,
                            member: string -> Membership, cancelEscapes: bool): (g: GateOut)
    requires Store.ListsChannels(rows, db)
    ensures IsAdminId(admins, u.userId) || db.channels == map[] ==> g == Pass
    ensures g.verdict == Halt <==>
      !IsAdminId(admins, u.userId) && cancelEscapes && exists j :: 0 <= j < |rows| && HasLeft(rows, member, j)
  {
    Store.ListingEmptyIff(rows, db);
    if IsAdminId(admins, u.userId) || rows == [] then Pass
    else Scan(rows, member, cancelEscapes, 0)
  }

  /** Shows the banner to a non-admin pressing 'exchange'; never halts. */
  function BannerGate(admins: seq<int>, u: Update, db: Store.Db): (g: GateOut)
    ensures g.verdict == Continue
    ensures g.notices != [] <==>
      !IsAdminId(admins, u.userId) && u.kind == CallbackUpdate && u.payload == "exchange" && db.banner.Some?
    ensures g.notices != [] ==> g.notices == [BannerAlert(db.banner.value)]
  {
    if u.kind != CallbackUpdate || IsAdminId(admins, u.userId) || u.payload != "exchange" then Pass
    else
      var banner := Store.BannerRows(Store.Open(db));
      if |banner| > 0 then GateOut(Continue, [BannerAlert(banner[0].1)]) else Pass
  }

  // ---------------------------------------------------------------------
  // Properties of the subscription loop
  // ---------------------------------------------------------------------

  /** Reference definition: the positions, from `k` on, of the channels the
      user has left, in listing order. */
  function LeftFrom(rows: seq<(string, string)>, member: string -> Membership, k: nat): (idx: seq<nat>)
    requires k <= |rows|
    ensures forall j :: 0 <= j < |idx| ==> k <= idx[j] < |rows|
    decreases |rows| - k
  {
    if k == |rows| then []
    else if HasLeft(rows, member, k) then [k] + LeftFrom(rows, member, k + 1)
    else LeftFrom(rows, member, k + 1)
  }

  /** When the cancel is swallowed, the loop never halts and prompts once
      per channel left, each prompt listing the URLs of the channels up to
      and including that one. */
  lemma {:induction false} ScanSwallowed(rows: seq<(string, string)>, member: string -> Membership, k: nat)
    requires k <= |rows|
    ensures var g := Scan(rows, member, false, k);
      var idx := LeftFrom(rows, member, k);
      && g.verdict == Continue
      && |g.notices| == |idx|
      && forall j :: 0 <= j < |idx| ==> g.notices[j] == PromptAt(rows, idx[j])
    decreases |rows| - k
  {
    if k < |rows| {
      ScanSwallowed(rows, member, k + 1);
    }
  }

  /** When the cancel escapes, the loop halts at the first channel left with
      one prompt listing exactly the URLs of channels 1..that one. */
  lemma {:induction false} ScanEscaping(rows: seq<(string, string)>, member: string -> Membership, k: nat)
    requires k <= |rows|
    ensures var g := Scan(rows, member, true, k);
      var idx := LeftFrom(rows, member, k);
      && (idx == [] <==> g == Pass)
      && (idx != [] ==> g == GateOut(Halt, [PromptAt(rows, idx[0])]))
    decreases |rows| - k
  {
    if k < |rows| {
      ScanEscaping(rows, member, k + 1);
    }
  }

  /** A failed lookup counts as not having left: replacing it by a 'member'
      answer changes nothing. */
  lemma {:induction false} LookupFailureSkipped(rows: seq<(string, string)>, member: string -> Membership,
                                                cancelEscapes: bool, k: nat, failed: string)
    requires k <= |rows| && member(failed) == LookupFailed
    ensures Scan(rows, member, cancelEscapes, k)
         == Scan(rows, x => if x == failed then Member("member") else member(x), cancelEscapes, k)
    decreases |rows| - k
  {
    if k < |rows| {
      LookupFailureSkipped(rows, member, cancelEscapes, k + 1, failed);
    }
  }

  /** A concrete table: two channels, the user has left both. With the
      cancel swallowed the handler still runs after two prompts, the second
      listing both URLs. */
  lemma TwoChannelsLeft(u: Update, db: Store.Db)
    requires u.userId != 1
    requires db.channels == map["c1" := "u1", "c2" := "u2"]
    ensures var rows := [("c1", "u1"), ("c2", "u2")];
      var member := (x: string) => Member("left");
      && Store.ListsChannels(rows, db)
      && SubscriptionGate([1], u, db, rows, member, false)
         == GateOut(Continue, [SubscribePrompt([Keyboards.Link("u1")]),
                               SubscribePrompt([Keyboards.Link("u1"), Keyboards.Link("u2")])])
      && SubscriptionGate([1], u, db, rows, member, true)
         == GateOut(Halt, [SubscribePrompt([Keyboards.Link("u1")])])
  {
    var rows := [("c1", "u1"), ("c2", "u2")];
    assert forall id :: id in db.channels ==> id == rows[0].0 || id == rows[1].0;
    assert Store.ListsChannels(rows, db);
    var member := (x: string) => Member("left");
    assert rows[..1] == [("c1", "u1")];
    assert rows[..2] == rows;
    var p1 := SubscribePrompt([Keyboards.Link("u1")]);
    var p2 := SubscribePrompt([Keyboards.Link("u1"), Keyboards.Link("u2")]);
    assert Keyboards.ChannelSubscriptionKeyboard(Urls(rows[..1])) == [Keyboards.Link("u1")];
    assert Keyboards.ChannelSubscriptionKeyboard(Urls(rows[..2])) == [Keyboards.Link("u1"), Keyboards.Link("u2")];
    assert PromptAt(rows, 0) == p1 && PromptAt(rows, 1) == p2;
    assert HasLeft(rows, member, 0) && HasLeft(rows, member, 1);
    assert Scan(rows, member, false, 2) == Pass;
    assert Scan(rows, member, false, 1) == GateOut(Continue, [p2]);
    assert Scan(rows, member, false, 0) == GateOut(Continue, [p1] + [p2]);
    assert Scan(rows, member, true, 0) == GateOut(Halt, [p1]);
  }
}
