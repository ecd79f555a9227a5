/** The upload form Nyaa receives and the torrent id read back from the page the
    upload redirects to. */
module Payload {
  import opened Wrappers
  import opened Strings

  const BaseUrl := "https://nyaa.si"
  /** The prefix of a torrent's detail page (`torrent_url`). */
  const TorrentUrl := "https://nyaa.si/view/"
  const MyAnimeListUrl := "https://myanimelist.net/anime/"

  /** The `information` field: the MyAnimeList page when the release has an id (`mal`
      is truthy, that is non-zero), empty otherwise. */
  function Information(mal: nat): (info: string)
    ensures mal == 0 <==> info == ""
    ensures mal != 0 ==> info == MyAnimeListUrl + Decimal(mal)
  {
    if mal != 0 then MyAnimeListUrl + Decimal(mal) else ""
  }

  /** The upload filename is the release name with the torrent extension. */
  function UploadFilename(name: string): string {
    name + ".torrent"
  }

  /** The keys the form may carry. */
  const FormKeys: set<string> :=
    {"display_name", "category", "information", "description", "is_anonymous", "is_complete", "is_remake"}

  /** What the form holds: the four text fields always, and each of the three flags,
      with value `y`, exactly when its condition holds. `anon` is the release's own
      anonymity setting, `configAnon` the tracker's configured default, `tvPack` the
      pack flag and `repack` the repack tag, each taken by its Python truthiness. */
  predicate IsPayload(data: map<string, string>, displayName: string, category: string, mal: nat,
                      description: string, anon: int, configAnon: bool, tvPack: int, repack: string)
  {
    && data.Keys <= FormKeys
    && "display_name" in data && data["display_name"] == displayName
    && "category" in data && data["category"] == category
    && "information" in data && data["information"] == Information(mal)
    && "description" in data && data["description"] == description
    && ("is_anonymous" in data <==> anon != 0 || configAnon)
    && ("is_complete" in data <==> tvPack != 0)
    && ("is_remake" in data <==> repack != "")
    && (forall k :: k in data && k in {"is_anonymous", "is_complete", "is_remake"} ==> data[k] == "y")
  }

  /** The payload determines the form completely: two maps that both satisfy it are equal. */
  lemma PayloadUnique(a: map<string, string>, b: map<string, string>, displayName: string, category: string,
                      mal: nat, description: string, anon: int, configAnon: bool, tvPack: int, repack: string)
    requires IsPayload(a, displayName, category, mal, description, anon, configAnon, tvPack, repack)
    requires IsPayload(b, displayName, category, mal, description, anon, configAnon, tvPack, repack)
    ensures a == b
  {
    assert a.Keys == b.Keys;
  }

  /** The form-building steps of `upload`: the four fixed fields, then the flags. */
  method BuildPayload(displayName: string, category: string, mal: nat, description: string,
                      anon: int, configAnon: bool, tvPack: int, repack: string)
    returns (data: map<string, string>)
    ensures IsPayload(data, displayName, category, mal, description, anon, configAnon, tvPack, repack)
  {
    var isAnonymous := anon != 0 || configAnon;
    var isPack := tvPack != 0;
    var isRemake := repack != "";
    data := map[
      "display_name" := displayName,
      "category" := category,
      "information" := Information(mal),
      "description" := description];
    if isAnonymous {
      data := data["is_anonymous" := "y"];
    }
    if isPack {
      data := data["is_complete" := "y"];
    }
    if isRemake {
      data := data["is_remake" := "y"];
    }
  }

  /** `/view/` followed by a digit starts at index `i` of `url`. */
  predicate ViewMatchAt(url: string, i: nat) {
    i + 7 <= |url| && url[i..i + 6] == "/view/" && IsDigit(url[i + 6])
  }

  /** The first index at or after `from` where the pattern `/view/(\d+)` matches. */
  function FirstViewMatch(url: string, from: nat): (r: Option<nat>)
    decreases |url| - from
    ensures r.None? ==> forall j :: from <= j ==> !ViewMatchAt(url, j)
    ensures r.Some? ==> from <= r.value && ViewMatchAt(url, r.value)
    ensures r.Some? ==> forall j :: from <= j < r.value ==> !ViewMatchAt(url, j)
  {
    if from + 7 > |url| then None
    else if ViewMatchAt(url, from) then Some(from)
    else FirstViewMatch(url, from + 1)
  }

  /** The longest run of digits at the start of `s` (what the greedy `\d+` captures). */
  function DigitRun(s: string): (r: string)
    ensures |r| <= |s| && r == s[..|r|] && AllDigits(r)
    ensures |r| == |s| || !IsDigit(s[|r|])
  {
    if s != [] && IsDigit(s[0]) then [s[0]] + DigitRun(s[1..]) else []
  }

  /** `int(re.search(r'/view/(\d+)', url).group(1))`, with `None` where the search finds
      no match (the source then fails on `None.group`). */
  function ViewId(url: string): (id: Option<nat>)
    ensures id.None? <==> forall j :: !ViewMatchAt(url, j)
  {
    match FirstViewMatch(url, 0)
    case None => None
    case Some(i) => Some(DigitsValue(DigitRun(url[i + 6..])))
  }

  lemma {:induction false} DigitRunOfDecimal(digits: string, suffix: string)
    requires AllDigits(digits)
    requires suffix == "" || !IsDigit(suffix[0])
    ensures DigitRun(digits + suffix) == digits
    decreases |digits|
  {
    if digits == [] {
      assert digits + suffix == suffix;
    } else {
      assert (digits + suffix)[1..] == digits[1..] + suffix;
      DigitRunOfDecimal(digits[1..], suffix);
    }
  }

  /** No `/v` pair occurs in the detail-page prefix before its own `/view/`. */
  lemma NoEarlierView()
    ensures forall j :: 0 <= j < 15 ==> !(TorrentUrl[j] == '/' && TorrentUrl[j + 1] == 'v')
  {
  }

  /** The id of a torrent's detail page reads back as that torrent's number, whatever
      non-digit text (a query or fragment) follows it. */
  lemma ViewIdOfDetailsUrl(n: nat, suffix: string)
    requires suffix == "" || !IsDigit(suffix[0])
    ensures ViewId(TorrentUrl + Decimal(n) + suffix) == Some(n)
  {
    var digits := Decimal(n);
    var url := TorrentUrl + (digits + suffix);
    assert url == TorrentUrl + digits + suffix;
    assert url[..21] == TorrentUrl;
    assert url[21..] == digits + suffix;
    assert ViewMatchAt(url, 15) by {
      assert url[15..21] == TorrentUrl[15..21];
      assert url[21] == digits[0];
    }
    forall j | 0 <= j < 15 ensures !ViewMatchAt(url, j) {
      NoEarlierView();
    }
    assert FirstViewMatch(url, 0) == Some(15);
    DigitRunOfDecimal(digits, suffix);
    DecimalValue(n);
  }
}
