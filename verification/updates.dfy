/** What every gate sees of an incoming update, and what a gate decides.
    A gate either lets the handler run or cancels it (aiogram's
    `CancelHandler`), and may show the user something on the way. */
module Updates {
  import Keyboards

  datatype Kind = MessageUpdate | CallbackUpdate

  /** The sender, the kind of update, and its payload: the callback data of
      a button press or the text of a message. */
  datatype Update = Update(userId: int, kind: Kind, payload: string)

  datatype Verdict = Continue | Halt

  /** What a gate shows the user. */
  datatype Notice =
    | BotDisabled
    | YouAreBanned
    | SubscribePrompt(keyboard: Keyboards.Keyboard)
    | BannerAlert(text: string)
    | SlowDown

  datatype GateOut = GateOut(verdict: Verdict, notices: seq<Notice>)

  const Pass := GateOut(Continue, [])

  /** Run `second` only when `first` let the update through; notices
      accumulate in order. */
  function Then(first: GateOut, second: GateOut): (g: GateOut)
    ensures first.verdict == Halt ==> g == first
    ensures first.verdict == Continue ==> g.verdict == second.verdict
    ensures first.verdict == Continue ==> g.notices == first.notices + second.notices
  {
    if first.verdict == Halt then first else GateOut(second.verdict, first.notices + second.notices)
  }
}
