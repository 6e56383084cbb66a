/** The default-data script: five crypto and five fiat currencies, five
    crypto and five fiat payment methods, each inserted unless its name is
    already taken. */
module Seeding {
  import opened Outcomes
  import Text
  import Store

  type Row<V> = (string, V)

  const CryptoCurrencies: seq<Row<Store.Currency>> := [
    ("Bitcoin (BTC)", Store.Currency("crypto", "0.001", "10", "The original cryptocurrency")),
    ("Ethereum (ETH)", Store.Currency("crypto", "0.01", "100", "Smart contract platform")),
    ("Tether (USDT)", Store.Currency("crypto", "10", "10000", "Stablecoin pegged to USD")),
    ("BNB", Store.Currency("crypto", "0.1", "100", "Binance ecosystem token")),
    ("XRP", Store.Currency("crypto", "10", "10000", "Fast and low-cost digital asset"))
  ]

  const FiatCurrencies: seq<Row<Store.Currency>> := [
    ("USD", Store.Currency("fiat", "10", "10000", "US Dollar")),
    ("EUR", Store.Currency("fiat", "10", "10000", "Euro")),
    ("RUB", Store.Currency("fiat", "1000", "1000000", "Russian Ruble")),
    ("GBP", Store.Currency("fiat", "10", "10000", "British Pound")),
    ("JPY", Store.Currency("fiat", "1000", "1000000", "Japanese Yen"))
  ]

  const CryptoMethods: seq<Row<string>> := [
    ("Bitcoin Address", "crypto"), ("Ethereum Address", "crypto"), ("USDT TRC20", "crypto"),
    ("USDT ERC20", "crypto"), ("BNB BEP20", "crypto")
  ]

  const FiatMethods: seq<Row<string>> := [
    ("Bank Transfer", "fiat"), ("Credit Card", "fiat"), ("PayPal", "fiat"), ("Revolut", "fiat"), ("Wise", "fiat")
  ]

  /** The insert order: crypto first, then fiat. */
  const DefaultCurrencies := CryptoCurrencies + FiatCurrencies
  const DefaultMethods := CryptoMethods + FiatMethods

  /** The names of the rows, in order. */
  function Names<V>(rows: seq<Row<V>>): (ns: seq<string>)
    ensures |ns| == |rows| && forall k :: 0 <= k < |rows| ==> ns[k] == rows[k].0
  {
    seq(|rows|, k requires 0 <= k < |rows| => rows[k].0)
  }

  predicate Named<V>(rows: seq<Row<V>>, name: string) {
    name in Names(rows)
  }

  /** `k` is the first row carrying its name. */
  predicate FirstOfName<V>(rows: seq<Row<V>>, k: int) {
    0 <= k < |rows| && forall j :: 0 <= j < k ==> rows[j].0 != rows[k].0
  }

  /** Each row in turn: INSERT, and on a primary-key clash skip it. */
  function InsertOrSkip<V>(m: map<string, V>, rows: seq<Row<V>>): (r: map<string, V>)
    ensures forall n :: n in r <==> n in m || Named(rows, n)
    ensures forall n :: n in m ==> r[n] == m[n]
    ensures forall k :: FirstOfName(rows, k) && rows[k].0 !in m ==> rows[k].0 in r && r[rows[k].0] == rows[k].1
    decreases |rows|
  {
    if |rows| == 0 then m
    else
      var m' := if rows[0].0 in m then m else m[rows[0].0 := rows[0].1];
      var r := InsertOrSkip(m', rows[1..]);
      assert forall k :: 1 <= k < |rows| ==> rows[1..][k - 1] == rows[k];
      assert forall n :: Named(rows[1..], n) ==> Named(rows, n);
      r
  }

  /** Inserting rows whose names are all taken changes nothing. */
  lemma {:induction false} InsertOrSkipTaken<V>(m: map<string, V>, rows: seq<Row<V>>)
    requires forall k :: 0 <= k < |rows| ==> rows[k].0 in m
    ensures InsertOrSkip(m, rows) == m
    decreases |rows|
  {
    if |rows| > 0 {
      InsertOrSkipTaken(m, rows[1..]);
    }
  }

  /** `add_default_currencies` followed by its commit. */
  function SeedCurrencies(db: Store.Db): (r: Store.Db)
    ensures r.(currencies := db.currencies) == db
  {
    db.(currencies := InsertOrSkip(db.currencies, DefaultCurrencies))
  }

  /** `add_default_payment_methods` followed by its commit. */
  function SeedMethods(db: Store.Db): (r: Store.Db)
    ensures r.(paymentMethods := db.paymentMethods) == db
  {
    db.(paymentMethods := InsertOrSkip(db.paymentMethods, DefaultMethods))
  }

  function Seed(db: Store.Db): Store.Db {
    SeedMethods(SeedCurrencies(db))
  }

  /** The script's loop over one list, statement by statement. */
  method InsertEach<V>(m: map<string, V>, rows: seq<Row<V>>) returns (r: map<string, V>)
    ensures r == InsertOrSkip(m, rows)
  {
    r := m;
    var i := 0;
    while i < |rows|
      invariant 0 <= i <= |rows|
      invariant InsertOrSkip(r, rows[i..]) == InsertOrSkip(m, rows)
    {
      assert rows[i..][1..] == rows[i + 1..];
      if rows[i].0 !in r {
        r := r[rows[i].0 := rows[i].1];
      }
      i := i + 1;
    }
    assert rows[i..] == [];
  }

  // ---------------------------------------------------------------------
  // The script's entry point
  // ---------------------------------------------------------------------

  /** Where an error other than a primary-key clash strikes, counted over
      the twenty INSERT statements in order: ten currencies, then ten
      payment methods. */
  datatype Fault = NoFault | FailsAt(statement: nat)

  /** `main`: its exit code and the store it leaves. Work is kept only up to
      the last commit, which each of the two seeding functions makes at its
      end; an uncommitted insert is lost when the connection is dropped. */
  function Main(db: Store.Db, fault: Fault): (r: (int, Store.Db))
    ensures r.0 == 0 <==> fault.NoFault? || fault.statement >= 20
    ensures r.0 == 0 || r.0 == 1
  {
    match fault
    case FailsAt(k) =>
      if k < |DefaultCurrencies| then (1, db)
      else if k < |DefaultCurrencies| + |DefaultMethods| then (1, SeedCurrencies(db))
      else (0, Seed(db))
    case NoFault => (0, Seed(db))
  }

  // ---------------------------------------------------------------------
  // Properties
  // ---------------------------------------------------------------------

  /** Running the script twice leaves the tables as running it once. */
  lemma SeedIdempotent(db: Store.Db)
    ensures Seed(Seed(db)) == Seed(db)
  {
    var once := Seed(db);
    InsertOrSkipTaken(once.currencies, DefaultCurrencies);
    InsertOrSkipTaken(once.paymentMethods, DefaultMethods);
    assert SeedCurrencies(once) == once;
  }

  /** A row already present under a default name is never overwritten, and
      every default name is present afterwards. */
  lemma SeedKeepsExisting(db: Store.Db, name: string)
    ensures name in db.currencies ==> Seed(db).currencies[name] == db.currencies[name]
    ensures name in db.paymentMethods ==> Seed(db).paymentMethods[name] == db.paymentMethods[name]
    ensures Named(DefaultCurrencies, name) ==> name in Seed(db).currencies
    ensures Named(DefaultMethods, name) ==> name in Seed(db).paymentMethods
  {
  }

  /** The ten names of each list are distinct. */
  lemma DefaultNamesDistinct()
    ensures forall k :: 0 <= k < |DefaultCurrencies| ==> FirstOfName(DefaultCurrencies, k)
    ensures forall k :: 0 <= k < |DefaultMethods| ==> FirstOfName(DefaultMethods, k)
  {
  }

  const CryptoNames := {"Bitcoin (BTC)", "Ethereum (ETH)", "Tether (USDT)", "BNB", "XRP"}
  const FiatNames := {"USD", "EUR", "RUB", "GBP", "JPY"}
  const CryptoMethodNames := {"Bitcoin Address", "Ethereum Address", "USDT TRC20", "USDT ERC20", "BNB BEP20"}
  const FiatMethodNames := {"Bank Transfer", "Credit Card", "PayPal", "Revolut", "Wise"}

  /** The rows a by-type query returns for these names. */
  function Tagged(names: set<string>, kind: string): set<(string, string)> {
    set n | n in names :: (n, kind)
  }

  /** On empty tables the script yields exactly the five currencies and five
      payment methods of each type. */
  lemma SeedEmpty()
    ensures var db := Seed(Store.EmptyDb());
      && Store.CurrenciesByType(db, "crypto") == Tagged(CryptoNames, "crypto")
      && Store.CurrenciesByType(db, "fiat") == Tagged(FiatNames, "fiat")
      && Store.PaymentMethodsByType(db, "crypto") == Tagged(CryptoMethodNames, "crypto")
      && Store.PaymentMethodsByType(db, "fiat") == Tagged(FiatMethodNames, "fiat")
  {
    SeedEmptyCurrencies();
    SeedEmptyMethods();
  }

  /** Five names of each type, so five rows of each type. */
  lemma DefaultCounts()
    ensures |CryptoNames| == 5 && |FiatNames| == 5 && |CryptoMethodNames| == 5 && |FiatMethodNames| == 5
    ensures |Tagged(CryptoNames, "crypto")| == 5 && |Tagged(FiatNames, "fiat")| == 5
    ensures |Tagged(CryptoMethodNames, "crypto")| == 5 && |Tagged(FiatMethodNames, "fiat")| == 5
  {
    TaggedSize(CryptoNames, "crypto");
    TaggedSize(FiatNames, "fiat");
    TaggedSize(CryptoMethodNames, "crypto");
    TaggedSize(FiatMethodNames, "fiat");
  }

  lemma {:induction false} TaggedSize(names: set<string>, kind: string)
    ensures |Tagged(names, kind)| == |names|
    decreases |names|
  {
    if names != {} {
      var n :| n in names;
      TaggedSize(names - {n}, kind);
      assert Tagged(names, kind) == Tagged(names - {n}, kind) + {(n, kind)};
    }
  }

  /** A row that is the first of its name lands in empty tables as given. */
  lemma FreshRow<V>(rows: seq<Row<V>>, k: int)
    requires FirstOfName(rows, k)
    ensures var r := InsertOrSkip(map[], rows); rows[k].0 in r && r[rows[k].0] == rows[k].1
  {
  }

  /** Seeding empty tables from two lists of distinctly named rows, each of
      one type: the rows of each type are exactly that list's names. */
  lemma FreshKinds<V>(a: seq<Row<V>>, b: seq<Row<V>>, kindOf: V -> string, ka: string, kb: string)
    requires ka != kb && Distinct(a + b) && Typed(a, kindOf, ka) && Typed(b, kindOf, kb)
    ensures var r := InsertOrSkip(map[], a + b);
      && (forall n :: n in r && kindOf(r[n]) == ka <==> n in Names(a))
      && (forall n :: n in r && kindOf(r[n]) == kb <==> n in Names(b))
  {
    var rows := a + b;
    var r := InsertOrSkip(map[], rows);
    forall n
      ensures n in r && kindOf(r[n]) == ka <==> n in Names(a)
      ensures n in r && kindOf(r[n]) == kb <==> n in Names(b)
    {
      FreshKindsAt(a, b, kindOf, ka, kb, n);
    }
  }

  predicate Typed<V>(rows: seq<Row<V>>, kindOf: V -> string, kind: string) {
    forall k :: 0 <= k < |rows| ==> kindOf(rows[k].1) == kind
  }

  predicate Distinct<V>(rows: seq<Row<V>>) {
    forall k :: 0 <= k < |rows| ==> FirstOfName(rows, k)
  }

  lemma FreshKindsAt<V>(a: seq<Row<V>>, b: seq<Row<V>>, kindOf: V -> string, ka: string, kb: string, n: string)
    requires ka != kb && Distinct(a + b) && Typed(a, kindOf, ka) && Typed(b, kindOf, kb)
    ensures var r := InsertOrSkip(map[], a + b);
      && (n in r && kindOf(r[n]) == ka <==> n in Names(a))
      && (n in r && kindOf(r[n]) == kb <==> n in Names(b))
  {
    if n in Names(a) {
      FreshInFirst(a, b, kindOf, ka, n);
      assert n !in Names(b) by { NamesDisjoint(a, b, n); }
    } else if n in Names(b) {
      FreshInSecond(a, b, kindOf, kb, n);
    } else {
      FreshInNeither(a, b, n);
    }
  }

  lemma NamesDisjoint<V>(a: seq<Row<V>>, b: seq<Row<V>>, n: string)
    requires Distinct(a + b) && n in Names(a)
    ensures n !in Names(b)
  {
    var i :| 0 <= i < |a| && Names(a)[i] == n;
    assert (a + b)[i] == a[i];
    forall j | 0 <= j < |b| ensures Names(b)[j] != n {
      assert (a + b)[|a| + j] == b[j];
      assert FirstOfName(a + b, |a| + j);
    }
  }

  lemma FreshInFirst<V>(a: seq<Row<V>>, b: seq<Row<V>>, kindOf: V -> string, ka: string, n: string)
    requires Distinct(a + b) && Typed(a, kindOf, ka) && n in Names(a)
    ensures var r := InsertOrSkip(map[], a + b); n in r && kindOf(r[n]) == ka
  {
    var k :| 0 <= k < |a| && Names(a)[k] == n;
    assert (a + b)[k] == a[k];
    FreshRow(a + b, k);
  }

  lemma FreshInSecond<V>(a: seq<Row<V>>, b: seq<Row<V>>, kindOf: V -> string, kb: string, n: string)
    requires Distinct(a + b) && Typed(b, kindOf, kb) && n in Names(b)
    ensures var r := InsertOrSkip(map[], a + b); n in r && kindOf(r[n]) == kb
  {
    var k :| 0 <= k < |b| && Names(b)[k] == n;
    assert (a + b)[|a| + k] == b[k];
    FreshRow(a + b, |a| + k);
  }

  lemma FreshInNeither<V>(a: seq<Row<V>>, b: seq<Row<V>>, n: string)
    requires n !in Names(a) && n !in Names(b)
    ensures n !in InsertOrSkip(map[], a + b)
  {
    var rows := a + b;
    assert Names(rows) == Names(a) + Names(b);
  }

  lemma CurrenciesOfType(db: Store.Db, kind: string, names: set<string>)
    requires forall n :: n in db.currencies && db.currencies[n].kind == kind <==> n in names
    ensures Store.CurrenciesByType(db, kind) == Tagged(names, kind)
  {
  }

  lemma MethodsOfType(db: Store.Db, kind: string, names: set<string>)
    requires forall n :: n in db.paymentMethods && db.paymentMethods[n] == kind <==> n in names
    ensures Store.PaymentMethodsByType(db, kind) == Tagged(names, kind)
  {
  }

  lemma CurrencyListFacts()
    ensures Typed(CryptoCurrencies, (c: Store.Currency) => c.kind, "crypto")
    ensures Typed(FiatCurrencies, (c: Store.Currency) => c.kind, "fiat")
    ensures forall n :: n in Names(CryptoCurrencies) <==> n in CryptoNames
    ensures forall n :: n in Names(FiatCurrencies) <==> n in FiatNames
  {
    assert Names(CryptoCurrencies) == ["Bitcoin (BTC)", "Ethereum (ETH)", "Tether (USDT)", "BNB", "XRP"];
    assert Names(FiatCurrencies) == ["USD", "EUR", "RUB", "GBP", "JPY"];
  }

  lemma MethodListFacts()
    ensures Typed(CryptoMethods, (t: string) => t, "crypto")
    ensures Typed(FiatMethods, (t: string) => t, "fiat")
    ensures forall n :: n in Names(CryptoMethods) <==> n in CryptoMethodNames
    ensures forall n :: n in Names(FiatMethods) <==> n in FiatMethodNames
  {
    assert Names(CryptoMethods) == ["Bitcoin Address", "Ethereum Address", "USDT TRC20", "USDT ERC20", "BNB BEP20"];
    assert Names(FiatMethods) == ["Bank Transfer", "Credit Card", "PayPal", "Revolut", "Wise"];
  }

  lemma SeedEmptyCurrencies()
    ensures var db := Seed(Store.EmptyDb());
      && Store.CurrenciesByType(db, "crypto") == Tagged(CryptoNames, "crypto")
      && Store.CurrenciesByType(db, "fiat") == Tagged(FiatNames, "fiat")
  {
    DefaultNamesDistinct();
    CurrencyListFacts();
    var db := Seed(Store.EmptyDb());
    assert db.currencies == InsertOrSkip(map[], CryptoCurrencies + FiatCurrencies);
    FreshKinds(CryptoCurrencies, FiatCurrencies, (c: Store.Currency) => c.kind, "crypto", "fiat");
    CurrenciesOfType(db, "crypto", CryptoNames);
    CurrenciesOfType(db, "fiat", FiatNames);
  }

  lemma SeedEmptyMethods()
    ensures var db := Seed(Store.EmptyDb());
      && Store.PaymentMethodsByType(db, "crypto") == Tagged(CryptoMethodNames, "crypto")
      && Store.PaymentMethodsByType(db, "fiat") == Tagged(FiatMethodNames, "fiat")
  {
    DefaultNamesDistinct();
    MethodListFacts();
    var db := Seed(Store.EmptyDb());
    assert db.paymentMethods == InsertOrSkip(map[], CryptoMethods + FiatMethods);
    FreshKinds(CryptoMethods, FiatMethods, (t: string) => t, "crypto", "fiat");
    MethodsOfType(db, "crypto", CryptoMethodNames);
    MethodsOfType(db, "fiat", FiatMethodNames);
  }

  /** Both bounds read as decimals, the minimum no larger than the maximum. */
  predicate BoundsOrdered(c: Store.Currency) {
    && Text.DecimalValue(c.minAmount).Some? && Text.DecimalValue(c.maxAmount).Some?
    && Text.DecimalValue(c.minAmount).value <= Text.DecimalValue(c.maxAmount).value
  }

  /** Every default currency's bounds read as decimals with min <= max. */
  lemma DefaultBoundsOrdered()
    ensures forall k :: 0 <= k < |DefaultCurrencies| ==> BoundsOrdered(DefaultCurrencies[k].1)
  {
    CryptoBoundsOrdered();
    FiatBoundsOrdered();
    forall k | 0 <= k < |DefaultCurrencies| ensures BoundsOrdered(DefaultCurrencies[k].1) {
      if k < |CryptoCurrencies| {
        assert DefaultCurrencies[k] == CryptoCurrencies[k];
      } else {
        assert DefaultCurrencies[k] == FiatCurrencies[k - |CryptoCurrencies|];
      }
    }
  }

  lemma CryptoBoundsOrdered()
    ensures forall k :: 0 <= k < |CryptoCurrencies| ==> BoundsOrdered(CryptoCurrencies[k].1)
  {
    forall k | 0 <= k < |CryptoCurrencies| ensures BoundsOrdered(CryptoCurrencies[k].1) {
      var c := CryptoCurrencies[k].1;
      if k == 0 {
        Decimals0001();
        Decimals10();
        Ordered(c, 0.001, 10.0);
      } else if k == 1 {
        Decimals001();
        Decimals10();
        Ordered(c, 0.01, 100.0);
      } else if k == 3 {
        Decimals01();
        Decimals10();
        Ordered(c, 0.1, 100.0);
      } else {
        Decimals10();
        Ordered(c, 10.0, 10000.0);
      }
    }
  }

  lemma FiatBoundsOrdered()
    ensures forall k :: 0 <= k < |FiatCurrencies| ==> BoundsOrdered(FiatCurrencies[k].1)
  {
    forall k | 0 <= k < |FiatCurrencies| ensures BoundsOrdered(FiatCurrencies[k].1) {
      var c := FiatCurrencies[k].1;
      if k == 2 || k == 4 {
        Decimals10();
        Decimals1000000();
        Ordered(c, 1000.0, 1000000.0);
      } else {
        Decimals10();
        Ordered(c, 10.0, 10000.0);
      }
    }
  }

  /** Bounds that read as `lo <= hi` are ordered. */
  lemma Ordered(c: Store.Currency, lo: real, hi: real)
    requires Text.DecimalValue(c.minAmount) == Some(lo) && Text.DecimalValue(c.maxAmount) == Some(hi)
    requires lo <= hi
    ensures BoundsOrdered(c)
  {
  }

  /** "10", "100", "1000" and "10000" read as their values. */
  lemma Decimals10()
    ensures Text.DecimalValue("10") == Some(10.0)
    ensures Text.DecimalValue("100") == Some(100.0)
    ensures Text.DecimalValue("1000") == Some(1000.0)
    ensures Text.DecimalValue("10000") == Some(10000.0)
  {
    var z := "0";
    Whole("1", z, 1, 10);
    assert "10" + z == "100";
    Whole("10", z, 10, 100);
    assert "100" + z == "1000";
    Whole("100", z, 100, 1000);
    assert "1000" + z == "10000";
    Whole("1000", z, 1000, 10000);
    Text.DecimalValueWhole("10");
    Text.DecimalValueWhole("100");
    Text.DecimalValueWhole("1000");
    Text.DecimalValueWhole("10000");
  }

  lemma Decimals1000000()
    ensures Text.DecimalValue("1000000") == Some(1000000.0)
  {
    var z := "0";
    Whole("1", z, 1, 10);
    assert "10" + z == "100";
    Whole("10", z, 10, 100);
    assert "100" + z == "1000";
    Whole("100", z, 100, 1000);
    assert "1000" + z == "10000";
    Whole("1000", z, 1000, 10000);
    assert "10000" + z == "100000";
    Whole("10000", z, 10000, 100000);
    assert "100000" + z == "1000000";
    Whole("100000", z, 100000, 1000000);
    Text.DecimalValueWhole("1000000");
  }

  lemma Decimals0001()
    ensures Text.DecimalValue("0.001") == Some(0.001)
  {
    LeadingZeros("1", 1);
    assert "0" + "1" == "01";
    LeadingZeros("01", 1);
    assert "0" + "01" == "001";
    assert Text.Pow10(3) == 10 * Text.Pow10(2) == 100 * Text.Pow10(1);
    Fraction("0", "001", 1, 1000);
  }

  lemma Decimals001()
    ensures Text.DecimalValue("0.01") == Some(0.01)
  {
    LeadingZeros("1", 1);
    assert "0" + "1" == "01";
    Fraction("0", "01", 1, 100);
  }

  lemma Decimals01()
    ensures Text.DecimalValue("0.1") == Some(0.1)
  {
    Fraction("0", "1", 1, 10);
  }

  /** Appending a zero to a digit string multiplies its value by ten. */
  lemma Whole(front: string, last: string, v: nat, w: nat)
    requires |front| > 0 && Text.AllDigits(front) && Text.DigitsValue(front) == v
    requires last == "0" && w == 10 * v
    ensures Text.AllDigits(front + last) && Text.DigitsValue(front + last) == w
  {
    assert (front + last)[..|front|] == front;
  }

  /** A leading zero does not change a digit string's value. */
  lemma {:induction false} LeadingZeros(s: string, v: nat)
    requires Text.AllDigits(s) && Text.DigitsValue(s) == v
    ensures Text.AllDigits("0" + s) && Text.DigitsValue("0" + s) == v
    decreases |s|
  {
    var t := "0" + s;
    if |s| == 0 {
      assert t[..0] == "";
    } else {
      var front := s[..|s| - 1];
      assert t[..|t| - 1] == "0" + front;
      assert Text.AllDigits(front);
      LeadingZeros(front, Text.DigitsValue(front));
    }
  }

  /** `0.frac` reads as the fraction over a power of ten. */
  lemma Fraction(whole: string, frac: string, f: nat, p: nat)
    requires whole == "0" && |frac| > 0 && Text.AllDigits(frac)
    requires Text.DigitsValue(frac) == f && Text.Pow10(|frac|) == p
    ensures Text.DecimalValue(whole + "." + frac) == Some(f as real / p as real)
  {
    Text.DecimalValueFraction(whole, frac);
    assert Text.DigitsValue(whole) == 0 by {
      assert whole[..0] == "";
    }
  }

  /** The exit code is 0 exactly when every statement ran; a failure among
      the payment methods keeps the committed currencies, one among the
      currencies keeps nothing. */
  lemma MainCommits(db: Store.Db, k: nat)
    ensures Main(db, NoFault) == (0, Seed(db))
    ensures k < 10 ==> Main(db, FailsAt(k)) == (1, db)
    ensures 10 <= k < 20 ==> Main(db, FailsAt(k)) == (1, SeedCurrencies(db))
    ensures 10 <= k < 20 ==> Main(db, FailsAt(k)).1.paymentMethods == db.paymentMethods
  {
  }
}
