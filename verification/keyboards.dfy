/** Inline keyboards, reduced to what the handlers act on: the callback data
    of each button, or the URL of a link button. Labels are presentation and
    are not modelled. */
module Keyboards {
  import Text

  datatype Button = Callback(data: string) | Link(url: string)

  type Keyboard = seq<Button>

  const MenuData := "menu"
  const CurrencyPrefix := "currency_"
  const PaymentPrefix := "payment_"

  /** The one-button keyboard shown under prompts and errors. */
  const BackToMenu: Keyboard := [Callback(MenuData)]

  /** The confirm keyboard: Send submits, Cancel goes to the main menu. */
  const SendToAdmin: Keyboard := [Callback("send_request"), Callback(MenuData)]

  /** The callback data of a currency button. */
  function CurrencyData(name: string): string {
    CurrencyPrefix + name
  }

  /** The callback data of a payment-method button. */
  function PaymentData(name: string): string {
    PaymentPrefix + name
  }

  /** The currency buttons of the rows whose type matches, in row order. */
  function CurrencyButtons(currencies: seq<(string, string)>, kind: string): (k: Keyboard)
    ensures |k| <= |currencies|
  {
    if |currencies| == 0 then []
    else
      var rest := CurrencyButtons(currencies[1..], kind);
      if currencies[0].1 == kind then [Callback(CurrencyData(currencies[0].0))] + rest else rest
  }

  /** `currency_selection_keyboard`: one button per row of the requested type,
      then Back to the menu. */
  function CurrencySelectionKeyboard(currencies: seq<(string, string)>, kind: string): (k: Keyboard)
    ensures |k| >= 1 && k[|k| - 1] == Callback(MenuData)
    ensures k[..|k| - 1] == CurrencyButtons(currencies, kind)
  {
    CurrencyButtons(currencies, kind) + [Callback(MenuData)]
  }

  /** Reference definition: the names of the rows of the given type, in order. */
  function NamesOfKind(currencies: seq<(string, string)>, kind: string): seq<string> {
    if |currencies| == 0 then []
    else if currencies[0].1 == kind then [currencies[0].0] + NamesOfKind(currencies[1..], kind)
    else NamesOfKind(currencies[1..], kind)
  }

  /** The currency buttons are exactly `currency_<name>` for the names of the
      requested type, in input order. */
  lemma {:induction false} CurrencyButtonsMatchNames(currencies: seq<(string, string)>, kind: string)
    ensures var k := CurrencyButtons(currencies, kind);
      var names := NamesOfKind(currencies, kind);
      |k| == |names| && forall j :: 0 <= j < |k| ==> k[j] == Callback(CurrencyPrefix + names[j])
  {
    if |currencies| > 0 {
      CurrencyButtonsMatchNames(currencies[1..], kind);
    }
  }

  /** `payment_method_keyboard`: one `payment_<name>` button per row, then Back. */
  function PaymentMethodKeyboard(methods: seq<(string, string)>): (k: Keyboard)
    ensures |k| == |methods| + 1 && k[|methods|] == Callback(MenuData)
    ensures forall j :: 0 <= j < |methods| ==> k[j] == Callback(PaymentPrefix + methods[j].0)
  {
    seq(|methods|, j requires 0 <= j < |methods| => Callback(PaymentData(methods[j].0))) + [Callback(MenuData)]
  }

  /** `bot_status_keyboard`: Turn Off when the status is 'on', otherwise Turn
      On; always followed by Back to the admin panel. */
  function BotStatusKeyboard(status: string): (k: Keyboard)
    ensures |k| == 2 && k[1] == Callback("back_to_admin")
    ensures k[0] == Callback("bot_off") <==> status == "on"
    ensures k[0] == Callback("bot_on") <==> status != "on"
  {
    [Callback(if status == "on" then "bot_off" else "bot_on"), Callback("back_to_admin")]
  }

  /** `channel_subscription_keyboard`: one link button per URL, in order. */
  function ChannelSubscriptionKeyboard(urls: seq<string>): (k: Keyboard)
    ensures |k| == |urls|
    ensures forall j :: 0 <= j < |urls| ==> k[j] == Link(urls[j])
  {
    seq(|urls|, j requires 0 <= j < |urls| => Link(urls[j]))
  }

  /** The callback data of the admin's approve and reject buttons:
      `approve_{uid}_{exchange}_{amount}` and `reject_{uid}_{exchange}_{amount}`. */
  function ExchangeRequestKeyboard(userId: string, exchange: string, amount: string): (k: Keyboard)
    ensures |k| == 2
    ensures k[0] == Callback("approve_" + userId + "_" + exchange + "_" + amount)
    ensures k[1] == Callback("reject_" + userId + "_" + exchange + "_" + amount)
  {
    [Callback("approve_" + userId + "_" + exchange + "_" + amount),
     Callback("reject_" + userId + "_" + exchange + "_" + amount)]
  }

  /** The handlers' `call.data.replace(prefix, "")`. */
  function Selected(data: string, prefix: string): string
    requires |prefix| > 0
  {
    Text.RemoveAll(data, prefix)
  }

  /** Pressing a currency button hands its handler the currency's name back,
      exactly when the name does not itself contain `currency_`. */
  lemma CurrencyDataRoundTrip(name: string)
    ensures Selected(CurrencyData(name), CurrencyPrefix) == name <==> !Text.Contains(name, CurrencyPrefix)
  {
    Text.PrefixRemovalRoundTrip(CurrencyPrefix, name);
  }

  /** The same for payment-method buttons and `payment_`. */
  lemma PaymentDataRoundTrip(name: string)
    ensures Selected(PaymentData(name), PaymentPrefix) == name <==> !Text.Contains(name, PaymentPrefix)
  {
    Text.PrefixRemovalRoundTrip(PaymentPrefix, name);
  }

  /** A concrete name that does not survive its button: the inner
      `currency_` is deleted as well. */
  lemma CurrencyDataLossy()
    ensures Selected(CurrencyData("my_currency_x"), CurrencyPrefix) == "my_x"
  {
    var s := CurrencyData("my_currency_x");
    assert Text.StartsWith(s, CurrencyPrefix);
    assert s[|CurrencyPrefix|..] == "my_currency_x";
    assert "my_currency_x"[0] != CurrencyPrefix[0];
    assert "y_currency_x"[0] != CurrencyPrefix[0];
    assert "_currency_x"[0] != CurrencyPrefix[0];
    assert "my_currency_x"[1..] == "y_currency_x";
    assert "y_currency_x"[1..] == "_currency_x";
    assert "_currency_x"[1..] == "currency_x";
    assert Text.StartsWith("currency_x", CurrencyPrefix);
    assert "currency_x"[|CurrencyPrefix|..] == "x";
    assert !Text.StartsWith("x", CurrencyPrefix);
  }
}
