/** The id lists read from the environment: `ADMIN_IDS` from the variable
    `ADMIN_ID` and `EXCHANGE_REQUEST_IDS` from `ANKET_SEND`, each a
    comma-separated list of integers. */
module Config {
  import opened Outcomes
  import Text

  /** Why the configuration module cannot load: `int()` rejected a segment. */
  datatype ConfigError = NotAnInteger(segment: string)

  /** `[int(x) for x in parts]`, failing at the first segment `int` rejects. */
  function ParseAll(parts: seq<string>): (r: Result<seq<int>, ConfigError>)
    ensures r.Success? ==> |r.value| == |parts|
    ensures r.Success? ==> forall k :: 0 <= k < |parts| ==> Text.ParseInt(parts[k]) == Some(r.value[k])
    ensures r.Failure? <==> exists k :: 0 <= k < |parts| && Text.ParseInt(parts[k]).None?
  {
    if |parts| == 0 then Success([])
    else
      match Text.ParseInt(parts[0])
      case None => Failure(NotAnInteger(parts[0]))
      case Some(v) =>
        match ParseAll(parts[1..])
        case Failure(e) => Failure(e)
        case Success(vs) => Success([v] + vs)
  }

  /** `[int(id) for id in os.getenv(var, '').split(',') if id]`: an unset
      variable reads as the empty string. */
  function ParseIdList(env: Option<string>): (r: Result<seq<int>, ConfigError>)
  {
    var raw := if env.Some? then env.value else "";
    ParseAll(Text.NonEmpty(Text.Split(raw, ',')))
  }

  function AdminIds(adminIdVar: Option<string>): Result<seq<int>, ConfigError> {
    ParseIdList(adminIdVar)
  }

  function ExchangeRequestIds(anketSendVar: Option<string>): Result<seq<int>, ConfigError> {
    ParseIdList(anketSendVar)
  }

  /** An unset or empty variable gives the empty list, so nobody is an admin. */
  lemma UnsetIsEmpty(env: Option<string>)
    requires env.None? || env == Some("")
    ensures ParseIdList(env) == Success([])
  {
    assert Text.Split("", ',') == [""];
  }

  /** Commas alone give the empty list: every empty segment, leading, inner
      or trailing, is dropped. */
  lemma {:induction false} OnlyCommasIsEmpty(raw: string)
    requires forall k :: 0 <= k < |raw| ==> raw[k] == ','
    ensures Text.NonEmpty(Text.Split(raw, ',')) == []
  {
    if |raw| > 0 {
      OnlyCommasIsEmpty(raw[1..]);
    }
  }

  /** The decimal rendering of a list of ids, comma separated. */
  function Render(ids: seq<int>): string
    requires |ids| > 0
  {
    Text.Join(RenderEach(ids), ',')
  }

  function RenderEach(ids: seq<int>): (parts: seq<string>)
    ensures |parts| == |ids|
    ensures forall k :: 0 <= k < |ids| ==> parts[k] == Text.IntToString(ids[k])
  {
    if |ids| == 0 then [] else [Text.IntToString(ids[0])] + RenderEach(ids[1..])
  }

  lemma {:induction false} RenderedPartsPlain(ids: seq<int>)
    ensures forall k :: 0 <= k < |ids| ==> ',' !in Text.IntToString(ids[k])
  {
    forall k | 0 <= k < |ids| ensures ',' !in Text.IntToString(ids[k]) {
    }
  }

  lemma {:induction false} NonEmptyKeepsFull(parts: seq<string>)
    requires forall k :: 0 <= k < |parts| ==> |parts[k]| > 0
    ensures Text.NonEmpty(parts) == parts
  {
    if |parts| > 0 {
      NonEmptyKeepsFull(parts[1..]);
    }
  }

  lemma {:induction false} ParseAllRendered(ids: seq<int>)
    ensures ParseAll(RenderEach(ids)) == Success(ids)
  {
    if |ids| > 0 {
      Text.ParseIntOfIntToString(ids[0]);
      assert RenderEach(ids)[1..] == RenderEach(ids[1..]);
      ParseAllRendered(ids[1..]);
      assert [ids[0]] + ids[1..] == ids;
    }
  }

  /** Reading back a rendered list gives the same ids in the same order,
      duplicates included. */
  lemma IdListRoundTrip(ids: seq<int>)
    requires |ids| > 0
    ensures ParseIdList(Some(Render(ids))) == Success(ids)
  {
    var parts := RenderEach(ids);
    RenderedPartsPlain(ids);
    Text.SplitJoin(parts, ',');
    NonEmptyKeepsFull(parts);
    ParseAllRendered(ids);
  }

  /** The request recipients follow the same rule from their own variable. */
  lemma RequestIdsRoundTrip(ids: seq<int>)
    requires |ids| > 0
    ensures ExchangeRequestIds(Some(Render(ids))) == Success(ids)
    ensures ExchangeRequestIds(None) == Success([])
  {
    IdListRoundTrip(ids);
    UnsetIsEmpty(None);
  }

  /** A concrete list with leading, doubled and trailing commas and a
      repeated id. */
  lemma ExampleIdList()
    ensures ParseIdList(Some(",7,,7,")) == Success([7, 7])
  {
    ExampleSplit();
    ExampleNonEmpty();
    ExampleParse();
  }

  lemma ExampleNonEmpty()
    ensures Text.NonEmpty(["", "7", "", "7", ""]) == ["7", "7"]
  {
    assert ["", "7", "", "7", ""][1..] == ["7", "", "7", ""];
    assert ["7", "", "7", ""][1..] == ["", "7", ""];
    assert ["", "7", ""][1..] == ["7", ""];
    assert ["7", ""][1..] == [""];
    assert Text.NonEmpty([""]) == [];
  }

  lemma ExampleParse()
    ensures ParseAll(["7", "7"]) == Success([7, 7])
  {
    ParseSeven();
    var parts := ["7", "7"];
    var r := ParseAll(parts);
    assert parts[0] == "7" && parts[1] == "7";
    assert forall k :: 0 <= k < |parts| ==> Text.ParseInt(parts[k]).Some?;
    assert r.Success?;
    assert Text.ParseInt(parts[0]) == Some(r.value[0]);
    assert Text.ParseInt(parts[1]) == Some(r.value[1]);
    assert r.value == [7, 7];
  }

  lemma ParseSeven()
    ensures Text.ParseInt("7") == Some(7)
  {
    Text.ParseIntOfIntToString(7);
    assert Text.IntToString(7) == "7";
  }

  lemma ExampleSplit()
    ensures Text.Split(",7,,7,", ',') == ["", "7", "", "7", ""]
  {
    assert Text.Split(",", ',') == ["", ""] by { assert "," == [','] + ""; SplitAtSep("", ','); }
    assert Text.Split("7,", ',') == ["7", ""] by {
      assert "7," == ['7'] + ",";
      Text.SplitPrepend('7', ",", ',');
      assert ['7'] + "" == "7";
    }
    assert Text.Split(",7,", ',') == ["", "7", ""] by { assert ",7," == [','] + "7,"; SplitAtSep("7,", ','); }
    assert Text.Split(",,7,", ',') == ["", "", "7", ""] by { assert ",,7," == [','] + ",7,"; SplitAtSep(",7,", ','); }
    assert Text.Split("7,,7,", ',') == ["7", "", "7", ""] by {
      assert "7,,7," == ['7'] + ",,7,";
      Text.SplitPrepend('7', ",,7,", ',');
    }
    assert ",7,,7," == [','] + "7,,7,";
    SplitAtSep("7,,7,", ',');
  }

  lemma SplitAtSep(tail: string, sep: char)
    ensures Text.Split([sep] + tail, sep) == [""] + Text.Split(tail, sep)
  {
    assert ([sep] + tail)[1..] == tail;
  }
}
