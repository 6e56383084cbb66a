/** The two conversation files read off the shared machine: each step of
    `fiat_to_crypto.py` and of `crypto_to_fiat.py` with its own state names,
    its own currency types and its own field names. In Fiat→Crypto the
    source currency is the fiat one; in Crypto→Fiat it is the crypto one. */
module Flows {
  import opened Outcomes
  import opened Exchange
  import States
  import Store
  import Keyboards
  import Text

  /** A button built for `name` reaches the currency handlers, and they read
      `name` back from it. */
  lemma CurrencyPress(name: string)
    requires !Text.Contains(name, Keyboards.CurrencyPrefix)
    ensures Text.StartsWith(Keyboards.CurrencyData(name), Keyboards.CurrencyPrefix)
    ensures Keyboards.Selected(Keyboards.CurrencyData(name), Keyboards.CurrencyPrefix) == name
  {
    Keyboards.CurrencyDataRoundTrip(name);
    assert Keyboards.CurrencyData(name)[..|Keyboards.CurrencyPrefix|] == Keyboards.CurrencyPrefix;
  }

  lemma PaymentPress(name: string)
    requires !Text.Contains(name, Keyboards.PaymentPrefix)
    ensures Text.StartsWith(Keyboards.PaymentData(name), Keyboards.PaymentPrefix)
    ensures Keyboards.Selected(Keyboards.PaymentData(name), Keyboards.PaymentPrefix) == name
  {
    Keyboards.PaymentDataRoundTrip(name);
    assert Keyboards.PaymentData(name)[..|Keyboards.PaymentPrefix|] == Keyboards.PaymentPrefix;
  }

  // ---------------------------------------------------------------------
  // Fiat→Crypto
  // ---------------------------------------------------------------------

  /** 'fiat_to_crypto' sets `select_fiat` exactly when a fiat currency exists. */
  lemma FiatToCryptoOpens(userId: int, db: Store.Db, env: Env)
    ensures var o := Step(Idle, userId, Press("fiat_to_crypto"), db, env);
      && o.db == Store.Open(db)
      && StateOf(o.session)
         == if Store.CurrenciesByType(db, "fiat") == {} then None else Some((FiatToCrypto, States.SelectFiat))
  {
  }

  /** In `select_fiat` a currency button stores the fiat name and moves to
      `select_crypto`, unless no crypto currency exists. */
  lemma FiatToCryptoSelectsFiat(fiat: string, userId: int, db: Store.Db, env: Env)
    requires !Text.Contains(fiat, Keyboards.CurrencyPrefix)
    ensures var o := Step(Active(FiatToCrypto, SelectSource), userId, Press(Keyboards.CurrencyData(fiat)), db, env);
      && o.db == Store.Open(db)
      && (Store.CurrenciesByType(db, "crypto") == {} <==> o.session == Idle)
      && (o.session != Idle ==>
            o.session == Active(FiatToCrypto, SelectDest(fiat))
            && StateOf(o.session) == Some((FiatToCrypto, States.SelectCrypto)))
  {
    CurrencyPress(fiat);
  }

  /** In `select_crypto` the flow reaches `select_payment_method` only when
      a payment method of type 'fiat' exists. */
  lemma FiatToCryptoSelectsCrypto(fiat: string, crypto: string, userId: int, db: Store.Db, env: Env)
    requires !Text.Contains(crypto, Keyboards.CurrencyPrefix)
    ensures var o := Step(Active(FiatToCrypto, SelectDest(fiat)), userId, Press(Keyboards.CurrencyData(crypto)), db, env);
      && o.db == Store.Open(db)
      && (Store.PaymentMethodsByType(db, "fiat") == {} <==> o.session == Idle)
      && (o.session != Idle ==>
            o.session == Active(FiatToCrypto, SelectMethod(fiat, crypto))
            && StateOf(o.session) == Some((FiatToCrypto, States.SelectPaymentMethod)))
  {
    CurrencyPress(crypto);
  }

  /** The payment method moves to `enter_amount` with the FIAT currency's
      limits, or ends the session when the fiat currency has no row. */
  lemma FiatToCryptoShowsFiatLimits(fiat: string, crypto: string, payment: string, userId: int, db: Store.Db, env: Env)
    requires !Text.Contains(payment, Keyboards.PaymentPrefix)
    ensures var o := Step(Active(FiatToCrypto, SelectMethod(fiat, crypto)), userId,
                          Press(Keyboards.PaymentData(payment)), db, env);
      && (fiat !in db.currencies <==> o.session == Idle)
      && (fiat !in db.currencies ==> o.reply == NoLimits)
      && (fiat in db.currencies ==>
            && o.session == Active(FiatToCrypto, EnterAmount(fiat, crypto, payment))
            && StateOf(o.session) == Some((FiatToCrypto, States.EnterAmount))
            && o.reply == AskAmount(db.currencies[fiat].minAmount, db.currencies[fiat].maxAmount))
  {
    PaymentPress(payment);
  }

  /** An amount within the fiat bounds moves to `enter_wallet_address`. */
  lemma FiatToCryptoAcceptsAmount(st: Stage, text: string, amount: real, userId: int, db: Store.Db, env: Env)
    requires st.EnterAmount? && st.source in db.currencies
    requires env.parse(Text.Strip(text)) == Some(amount)
    requires env.parse(db.currencies[st.source].minAmount).Some?
    requires env.parse(db.currencies[st.source].maxAmount).Some?
    requires env.parse(db.currencies[st.source].minAmount).value <= amount
    requires amount <= env.parse(db.currencies[st.source].maxAmount).value
    ensures var o := Step(Active(FiatToCrypto, st), userId, Message(text), db, env);
      && o.session == Active(FiatToCrypto, EnterDetails(st.source, st.dest, st.payment, amount))
      && StateOf(o.session) == Some((FiatToCrypto, States.EnterWalletAddress))
  {
  }

  /** The wallet address is stored stripped; a comment reading 'none' is
      stored as it is and the flow moves to `confirm`. */
  lemma FiatToCryptoStoresNone(st: Stage, wallet: string, userId: int, db: Store.Db, env: Env)
    requires st.EnterDetails?
    ensures var o1 := Step(Active(FiatToCrypto, st), userId, Message(wallet), db, env);
      var o2 := Step(o1.session, userId, Message("none"), db, env);
      && o1.session == Active(FiatToCrypto, EnterComment(st.source, st.dest, st.payment, st.amount, Text.Strip(wallet)))
      && o2.session == Active(FiatToCrypto, Confirm(st.source, st.dest, st.payment, st.amount, Text.Strip(wallet), "none"))
      && StateOf(o2.session) == Some((FiatToCrypto, States.Confirm))
  {
    Text.StripFixed("none");
  }

  /** Send records 'fiat → crypto' and asks for approval of '{fiat}_{crypto}'. */
  lemma FiatToCryptoSubmits(fiat: string, crypto: string, payment: string, amount: real, wallet: string,
                            comment: string, userId: int, db: Store.Db, env: Env)
    ensures var o := Step(Active(FiatToCrypto, Confirm(fiat, crypto, payment, amount, wallet, comment)),
                          userId, Press("send_request"), db, env);
      && o.session == Idle
      && o.db.history == db.history + [Store.HistoryRow(env.render(amount), Text.IntToString(userId),
                                                        fiat + " \U{2192} " + crypto,
                                                        Store.DateStamp(env.today, env.week))]
      && forall k :: 0 <= k < |o.sent| ==>
           o.sent[k].keyboard[0]
             == Keyboards.Callback("approve_" + Text.IntToString(userId) + "_" + (fiat + "_" + crypto)
                                   + "_" + env.render(amount))
  {
  }

  // ---------------------------------------------------------------------
  // Crypto→Fiat
  // ---------------------------------------------------------------------

  /** 'crypto_to_fiat' sets `select_crypto` exactly when a crypto currency exists. */
  lemma CryptoToFiatOpens(userId: int, db: Store.Db, env: Env)
    ensures var o := Step(Idle, userId, Press("crypto_to_fiat"), db, env);
      && o.db == Store.Open(db)
      && StateOf(o.session)
         == if Store.CurrenciesByType(db, "crypto") == {} then None else Some((CryptoToFiat, States.SelectCrypto))
  {
  }

  /** In `select_crypto` a currency button stores the crypto name and moves
      to `select_fiat`, unless no fiat currency exists. */
  lemma CryptoToFiatSelectsCrypto(crypto: string, userId: int, db: Store.Db, env: Env)
    requires !Text.Contains(crypto, Keyboards.CurrencyPrefix)
    ensures var o := Step(Active(CryptoToFiat, SelectSource), userId, Press(Keyboards.CurrencyData(crypto)), db, env);
      && o.db == Store.Open(db)
      && (Store.CurrenciesByType(db, "fiat") == {} <==> o.session == Idle)
      && (o.session != Idle ==>
            o.session == Active(CryptoToFiat, SelectDest(crypto))
            && StateOf(o.session) == Some((CryptoToFiat, States.SelectFiat)))
  {
    CurrencyPress(crypto);
  }

  /** In `select_fiat` the flow reaches `select_payment_method` only when a
      payment method of type 'fiat' exists, as in the other flow. */
  lemma CryptoToFiatSelectsFiat(crypto: string, fiat: string, userId: int, db: Store.Db, env: Env)
    requires !Text.Contains(fiat, Keyboards.CurrencyPrefix)
    ensures var o := Step(Active(CryptoToFiat, SelectDest(crypto)), userId, Press(Keyboards.CurrencyData(fiat)), db, env);
      && o.db == Store.Open(db)
      && (Store.PaymentMethodsByType(db, "fiat") == {} <==> o.session == Idle)
      && (o.session != Idle ==>
            o.session == Active(CryptoToFiat, SelectMethod(crypto, fiat))
            && StateOf(o.session) == Some((CryptoToFiat, States.SelectPaymentMethod)))
  {
    CurrencyPress(fiat);
  }

  /** The payment method moves to `enter_amount` with the CRYPTO currency's
      limits, or ends the session when the crypto currency has no row. */
  lemma CryptoToFiatShowsCryptoLimits(crypto: string, fiat: string, payment: string, userId: int, db: Store.Db, env: Env)
    requires !Text.Contains(payment, Keyboards.PaymentPrefix)
    ensures var o := Step(Active(CryptoToFiat, SelectMethod(crypto, fiat)), userId,
                          Press(Keyboards.PaymentData(payment)), db, env);
      && (crypto !in db.currencies <==> o.session == Idle)
      && (crypto !in db.currencies ==> o.reply == NoLimits)
      && (crypto in db.currencies ==>
            && o.session == Active(CryptoToFiat, EnterAmount(crypto, fiat, payment))
            && StateOf(o.session) == Some((CryptoToFiat, States.EnterAmount))
            && o.reply == AskAmount(db.currencies[crypto].minAmount, db.currencies[crypto].maxAmount))
  {
    PaymentPress(payment);
  }

  /** An amount is checked against the crypto bounds: within them the flow
      moves to `enter_payment_details`, outside them it stays put. */
  lemma CryptoToFiatChecksCryptoBounds(crypto: string, fiat: string, payment: string, text: string, amount: real,
                                       userId: int, db: Store.Db, env: Env)
    requires crypto in db.currencies
    requires env.parse(Text.Strip(text)) == Some(amount)
    requires env.parse(db.currencies[crypto].minAmount).Some?
    requires env.parse(db.currencies[crypto].maxAmount).Some?
    ensures var lo, hi := env.parse(db.currencies[crypto].minAmount).value, env.parse(db.currencies[crypto].maxAmount).value;
      var s := Active(CryptoToFiat, EnterAmount(crypto, fiat, payment));
      var o := Step(s, userId, Message(text), db, env);
      && (lo <= amount <= hi ==>
            o.session == Active(CryptoToFiat, EnterDetails(crypto, fiat, payment, amount))
            && StateOf(o.session) == Some((CryptoToFiat, States.EnterPaymentDetails)))
      && (!(lo <= amount <= hi) ==> o.session == s && o.reply == OutOfRange(lo, hi))
  {
  }

  /** Payment details and comment are stored stripped; the flow then
      stands in `confirm`. */
  lemma CryptoToFiatStoresStripped(st: Stage, details: string, comment: string, userId: int, db: Store.Db, env: Env)
    requires st.EnterDetails?
    ensures var o1 := Step(Active(CryptoToFiat, st), userId, Message(details), db, env);
      var o2 := Step(o1.session, userId, Message(comment), db, env);
      && o2.session == Active(CryptoToFiat, Confirm(st.source, st.dest, st.payment, st.amount,
                                                    Text.Strip(details), Text.Strip(comment)))
      && StateOf(o2.session) == Some((CryptoToFiat, States.Confirm))
      && o2.reply == Summary(Keyboards.SendToAdmin)
  {
    var o1 := EnterDetailsStep(CryptoToFiat, st, details, db);
    assert Step(Active(CryptoToFiat, st), userId, Message(details), db, env) == o1;
    var st' := EnterComment(st.source, st.dest, st.payment, st.amount, Text.Strip(details));
    assert o1.session == Active(CryptoToFiat, st');
    assert Step(o1.session, userId, Message(comment), db, env) == EnterCommentStep(CryptoToFiat, st', comment, db);
  }

  /** Send records 'crypto → fiat' and asks for approval of '{crypto}_{fiat}'. */
  lemma CryptoToFiatSubmits(crypto: string, fiat: string, payment: string, amount: real, details: string,
                            comment: string, userId: int, db: Store.Db, env: Env)
    ensures var o := Step(Active(CryptoToFiat, Confirm(crypto, fiat, payment, amount, details, comment)),
                          userId, Press("send_request"), db, env);
      && o.session == Idle
      && o.db.history == db.history + [Store.HistoryRow(env.render(amount), Text.IntToString(userId),
                                                        crypto + " \U{2192} " + fiat,
                                                        Store.DateStamp(env.today, env.week))]
      && forall k :: 0 <= k < |o.sent| ==>
           o.sent[k].keyboard[1]
             == Keyboards.Callback("reject_" + Text.IntToString(userId) + "_" + (crypto + "_" + fiat)
                                   + "_" + env.render(amount))
  {
  }
}
