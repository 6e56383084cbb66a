/** The anti-flood middleware: which bucket and rate an update is throttled
    under, what happens when the dispatcher reports it throttled, and the
    `rate_limit` decorator that configures a handler. The dispatcher's
    bucket itself (timing, per-user counters) is an oracle. */
module Throttling {
  import Text
  import opened Outcomes
  import opened Updates

  /** aiogram 2's `DEFAULT_RATE_LIMIT`, in seconds. */
  const DefaultRateLimit: real := 0.1

  /** The key prefix the middleware is constructed with. */
  const DefaultPrefix := "antiflood_"

  /** The middleware's constructor arguments. */
  datatype Settings = Settings(rateLimit: real, prefix: string)

  const Defaults := Settings(DefaultRateLimit, DefaultPrefix)

  /** A handler as the middleware sees it: its function name and the two
      attributes `rate_limit` may have set on it. */
  datatype Handler = Handler(name: string, rateLimit: Option<real>, key: Option<string>)

  /** The dispatcher's answer for a key and rate: allowed, or throttled with
      the bucket's rate, the time since the last allowed call, and how many
      times in a row the bucket has been exceeded. */
  datatype Throttle = Allowed | Throttled(rate: real, delta: real, exceededCount: nat)

  /** The rate an update is throttled at: the handler's own attribute when it
      has one, otherwise the middleware's. */
  function Limit(cfg: Settings, h: Option<Handler>): real {
    if h.Some? && h.value.rateLimit.Some? then h.value.rateLimit.value else cfg.rateLimit
  }

  /** The bucket an update is throttled under: the handler's own key when it
      has one, otherwise the prefix, an underscore and the handler's name;
      with no handler, the prefix and `_message` or `_callback`. */
  function Key(cfg: Settings, h: Option<Handler>, kind: Kind): string {
    match h
    case Some(handler) =>
      if handler.key.Some? then handler.key.value else cfg.prefix + "_" + handler.name
    case None =>
      cfg.prefix + (if kind == MessageUpdate then "_message" else "_callback")
  }

  /** The throttled-update action: warn only for the first two excesses,
      then wait out the rest of the bucket. */
  datatype Reaction = Reaction(warned: bool, wait: real)

  function OnThrottled(t: Throttle): (r: Reaction)
    requires t.Throttled?
    ensures r.warned <==> t.exceededCount <= 2
    ensures r.wait + t.delta == t.rate
  {
    Reaction(t.exceededCount <= 2, t.rate - t.delta)
  }

  /** The whole middleware for one update: ask the dispatcher, and cancel
      the handler whenever it reports the update throttled. */
  function Check(cfg: Settings, h: Option<Handler>, kind: Kind, throttle: (string, real) -> Throttle): (g: GateOut)
    ensures var t := throttle(Key(cfg, h, kind), Limit(cfg, h));
      && (g.verdict == Halt <==> t.Throttled?)
      && (g.notices == [SlowDown] <==> t.Throttled? && t.exceededCount <= 2)
      && (g.notices != [SlowDown] ==> g.notices == [])
  {
    var t := throttle(Key(cfg, h, kind), Limit(cfg, h));
    match t
    case Allowed => Pass
    case Throttled(_, _, _) =>
      GateOut(Halt, if OnThrottled(t).warned then [SlowDown] else [])
  }

  /** The `rate_limit(limit, key)` decorator: always records the limit,
      records the key only when it is truthy. */
  function RateLimit(h: Handler, limit: real, key: Option<string>): (d: Handler)
    ensures d.name == h.name && d.rateLimit == Some(limit)
    ensures Text.Truthy(key) ==> d.key == key
    ensures !Text.Truthy(key) ==> d.key == h.key
  {
    Handler(h.name, Some(limit), if Text.Truthy(key) then key else h.key)
  }

  // ---------------------------------------------------------------------
  // Properties
  // ---------------------------------------------------------------------

  /** A decorated handler is throttled at the decorator's rate, under the
      decorator's key when one was given and under its previous key
      otherwise; whatever the middleware's own settings are. */
  lemma DecoratedHandlerSettings(cfg: Settings, h: Handler, limit: real, key: Option<string>, kind: Kind)
    ensures Limit(cfg, Some(RateLimit(h, limit, key))) == limit
    ensures Text.Truthy(key) ==> Key(cfg, Some(RateLimit(h, limit, key)), kind) == key.value
    ensures !Text.Truthy(key) ==> Key(cfg, Some(RateLimit(h, limit, key)), kind) == Key(cfg, Some(h), kind)
  {
  }

  /** An undecorated handler uses the middleware's rate and the bucket named
      after the handler; with the default prefix, which already ends in an
      underscore, the name follows a double underscore. */
  lemma UndecoratedHandlerSettings(name: string, kind: Kind)
    ensures Limit(Defaults, Some(Handler(name, None, None))) == DefaultRateLimit
    ensures Key(Defaults, Some(Handler(name, None, None)), kind) == "antiflood__" + name
  {
  }

  /** Undecorated handlers with different names never share a bucket, and
      none shares the fallback buckets used without a handler. */
  lemma DefaultKeysSeparateHandlers(cfg: Settings, n1: string, n2: string, kind: Kind)
    ensures Key(cfg, Some(Handler(n1, None, None)), kind) == Key(cfg, Some(Handler(n2, None, None)), kind) <==> n1 == n2
    ensures Key(cfg, None, MessageUpdate) != Key(cfg, None, CallbackUpdate)
  {
    var p := cfg.prefix + "_";
    if Key(cfg, Some(Handler(n1, None, None)), kind) == Key(cfg, Some(Handler(n2, None, None)), kind) {
      assert p + n1 == p + n2;
      assert n1 == (p + n1)[|p|..];
      assert n2 == (p + n2)[|p|..];
    }
    var m, c := cfg.prefix + "_message", cfg.prefix + "_callback";
    assert m[|cfg.prefix| + 1] == 'm' && c[|cfg.prefix| + 1] == 'c';
  }

  /** How many warnings a run of throttled answers produces. */
  function Warnings(burst: seq<Throttle>): (n: nat)
    requires forall k :: 0 <= k < |burst| ==> burst[k].Throttled?
    ensures n <= |burst|
  {
    if |burst| == 0 then 0
    else (if OnThrottled(burst[0]).warned then 1 else 0) + Warnings(burst[1..])
  }

  /** The dispatcher counts the excesses of one burst 1, 2, 3, ... */
  predicate Increasing(burst: seq<Throttle>, above: nat) {
    && (forall k :: 0 <= k < |burst| ==> burst[k].Throttled? && burst[k].exceededCount > above)
    && (forall j, k :: 0 <= j < k < |burst| ==> burst[j].exceededCount < burst[k].exceededCount)
  }

  lemma {:induction false} WarningsAbove(burst: seq<Throttle>, above: nat)
    requires Increasing(burst, above)
    ensures Warnings(burst) <= if above >= 2 then 0 else 2 - above
  {
    if |burst| > 0 {
      var first := burst[0].exceededCount;
      assert Increasing(burst[1..], first);
      WarningsAbove(burst[1..], first);
    }
  }

  /** However long a flood lasts, the user is warned at most twice. */
  lemma AtMostTwoWarnings(burst: seq<Throttle>)
    requires Increasing(burst, 0)
    ensures Warnings(burst) <= 2
  {
    WarningsAbove(burst, 0);
  }
}
