/**
  The page component of the weather app: the favorites list handlers, the
  favorite flag of the shown city, the retry action and the choice of panel.
  The list handlers build a new list from the old one, so they are functions.
 */
module App {
  import opened Wrappers
  import opened WeatherModel
  import opened UseWeather
  import Seqs

  datatype FavoriteCity = FavoriteCity(city: string, country: string)

  /** The string `${city}-${country}` that toggling compares. */
  function KeyOf(city: string, country: string): string {
    city + "-" + country
  }

  function Key(f: FavoriteCity): string {
    KeyOf(f.city, f.country)
  }

  /** No two entries share a key. */
  predicate UniqueKeys(favs: seq<FavoriteCity>) {
    forall i, j :: 0 <= i < j < |favs| ==> Key(favs[i]) != Key(favs[j])
  }

  predicate HasKey(favs: seq<FavoriteCity>, key: string) {
    exists i :: 0 <= i < |favs| && Key(favs[i]) == key
  }

  /** `favorites.findIndex(fav => `${fav.city}-${fav.country}` === key)`. */
  function FindKey(favs: seq<FavoriteCity>, key: string): (r: int)
    ensures -1 <= r < |favs|
    ensures r >= 0 ==> Key(favs[r]) == key && forall j :: 0 <= j < r ==> Key(favs[j]) != key
    ensures r == -1 <==> !HasKey(favs, key)
  {
    var keys := seq(|favs|, i requires 0 <= i < |favs| => Key(favs[i]));
    assert HasKey(favs, key) ==> key in keys by {
      if HasKey(favs, key) {
        var i :| 0 <= i < |favs| && Key(favs[i]) == key;
        assert keys[i] == key;
      }
    }
    assert forall j :: 0 <= j < |favs| ==> keys[j] == Key(favs[j]);
    Seqs.FindIndex(keys, key)
  }

  /** `handleToggleFavorite`: drop the first entry with the pair's key, or append the pair. */
  function Toggle(favs: seq<FavoriteCity>, city: string, country: string): seq<FavoriteCity> {
    var i := FindKey(favs, KeyOf(city, country));
    if i >= 0 then favs[..i] + favs[i + 1..] else favs + [FavoriteCity(city, country)]
  }

  /** A pair whose key is not in the list is appended at the end; nothing else moves. */
  lemma ToggleAppendsAbsent(favs: seq<FavoriteCity>, city: string, country: string)
    requires !HasKey(favs, KeyOf(city, country))
    ensures Toggle(favs, city, country) == favs + [FavoriteCity(city, country)]
  {
  }

  /** A pair whose key is in the list removes the first entry with that key, and only it. */
  lemma ToggleRemovesFirstMatch(favs: seq<FavoriteCity>, city: string, country: string)
    requires HasKey(favs, KeyOf(city, country))
    ensures var k := FindKey(favs, KeyOf(city, country));
      var t := Toggle(favs, city, country);
      && Key(favs[k]) == KeyOf(city, country)
      && |t| == |favs| - 1
      && (forall j :: 0 <= j < k ==> t[j] == favs[j])
      && (forall j :: k <= j < |t| ==> t[j] == favs[j + 1])
  {
    var k := FindKey(favs, KeyOf(city, country));
    var t := favs[..k] + favs[k + 1..];
    assert Toggle(favs, city, country) == t;
    forall j | k <= j < |t| ensures t[j] == favs[j + 1] {
      assert t[j] == favs[k + 1..][j - k];
    }
  }

  /** Matching goes by the joined string: a different pair with the same key is removed in its place. */
  lemma ToggleKeyCollision()
    ensures FavoriteCity("a-b", "c") != FavoriteCity("a", "b-c")
    ensures Key(FavoriteCity("a-b", "c")) == Key(FavoriteCity("a", "b-c"))
    ensures Toggle([FavoriteCity("a-b", "c")], "a", "b-c") == []
  {
    var favs := [FavoriteCity("a-b", "c")];
    assert Key(favs[0]) == KeyOf("a", "b-c");
    assert FindKey(favs, KeyOf("a", "b-c")) == 0;
  }

  /** Keys cannot collide when neither country contains a hyphen. */
  lemma KeyInjective(a: FavoriteCity, b: FavoriteCity)
    requires '-' !in a.country && '-' !in b.country
    requires Key(a) == Key(b)
    ensures a == b
  {
    var k := Key(a);
    assert k[|a.city|] == '-' && k[|b.city|] == '-';
    assert |a.city| == |b.city|;
    assert a.city == k[..|a.city|] == b.city;
    assert a.country == k[|a.city| + 1..] == b.country;
  }

  /** Toggling a pair that is not there, twice, gives back the original list. */
  lemma ToggleTwiceRestores(favs: seq<FavoriteCity>, city: string, country: string)
    requires !HasKey(favs, KeyOf(city, country))
    ensures Toggle(Toggle(favs, city, country), city, country) == favs
  {
    var key := KeyOf(city, country);
    var t := favs + [FavoriteCity(city, country)];
    assert Key(t[|favs|]) == key;
    assert forall j :: 0 <= j < |favs| ==> t[j] == favs[j];
    assert FindKey(t, key) == |favs|;
    assert t[..|favs|] == favs;
  }

  /** Toggling keeps keys unique, and flips whether the pair's key is in the list. */
  lemma ToggleKeepsKeysUnique(favs: seq<FavoriteCity>, city: string, country: string)
    requires UniqueKeys(favs)
    ensures UniqueKeys(Toggle(favs, city, country))
    ensures HasKey(Toggle(favs, city, country), KeyOf(city, country)) <==> !HasKey(favs, KeyOf(city, country))
  {
    var key := KeyOf(city, country);
    var t := Toggle(favs, city, country);
    if HasKey(favs, key) {
      ToggleRemovesFirstMatch(favs, city, country);
      var k := FindKey(favs, key);
      forall i, j | 0 <= i < j < |t| ensures Key(t[i]) != Key(t[j]) {
        var i' := if i < k then i else i + 1;
        var j' := if j < k then j else j + 1;
        assert t[i] == favs[i'] && t[j] == favs[j'];
      }
      forall j | 0 <= j < |t| ensures Key(t[j]) != key {
        var j' := if j < k then j else j + 1;
        assert t[j] == favs[j'];
      }
    } else {
      assert Key(t[|favs|]) == key;
      forall i, j | 0 <= i < j < |t| ensures Key(t[i]) != Key(t[j]) {
        assert t[i] == favs[i];
        if j < |favs| { assert t[j] == favs[j]; }
      }
    }
  }

  /**
    With unique keys, toggling a pair that is in the list twice takes it out and appends it again:
    the same entries, the pair moved to the end.
  */
  lemma ToggleTwicePresent(favs: seq<FavoriteCity>, city: string, country: string)
    requires UniqueKeys(favs) && FavoriteCity(city, country) in favs
    ensures var k := FindKey(favs, KeyOf(city, country));
      && 0 <= k && favs[k] == FavoriteCity(city, country)
      && Toggle(Toggle(favs, city, country), city, country) == favs[..k] + favs[k + 1..] + [favs[k]]
    ensures multiset(Toggle(Toggle(favs, city, country), city, country)) == multiset(favs)
  {
    var k := FoundAtPair(favs, city, country);
    var t := Toggle(favs, city, country);
    assert t == favs[..k] + favs[k + 1..];
    ToggleKeepsKeysUnique(favs, city, country);
    ToggleAppendsAbsent(t, city, country);
    MoveToEndMultiset(favs, k);
  }

  /** With unique keys, the entry found by the pair's key is the pair itself. */
  lemma FoundAtPair(favs: seq<FavoriteCity>, city: string, country: string) returns (k: int)
    requires UniqueKeys(favs) && FavoriteCity(city, country) in favs
    ensures k == FindKey(favs, KeyOf(city, country))
    ensures 0 <= k < |favs| && favs[k] == FavoriteCity(city, country)
  {
    var key := KeyOf(city, country);
    var p :| 0 <= p < |favs| && favs[p] == FavoriteCity(city, country);
    assert Key(favs[p]) == key;
    k := FindKey(favs, key);
  }

  /** Moving one element to the end keeps the multiset. */
  lemma MoveToEndMultiset<T>(s: seq<T>, k: nat)
    requires k < |s|
    ensures multiset(s[..k] + s[k + 1..] + [s[k]]) == multiset(s)
  {
    assert s == s[..k] + [s[k]] + s[k + 1..];
  }

  /**
    Without unique keys the double toggle does not give the list back: the colliding entry
    is removed and the toggled pair is added in its place.
  */
  lemma ToggleTwiceCollision()
    ensures var favs := [FavoriteCity("a-b", "c")];
      var t := Toggle(Toggle(favs, "a", "b-c"), "a", "b-c");
      && t == [FavoriteCity("a", "b-c")]
      && multiset(t) != multiset(favs)
  {
    ToggleKeyCollision();
    ToggleAppendsAbsent([], "a", "b-c");
    assert FavoriteCity("a-b", "c") !in multiset([FavoriteCity("a", "b-c")]);
  }

  /** `handleRemoveCity`: keep the entries whose city differs. */
  function RemoveCity(favs: seq<FavoriteCity>, city: string): (r: seq<FavoriteCity>)
    ensures |r| <= |favs|
    ensures forall f :: f in r <==> f in favs && f.city != city
  {
    if favs == [] then []
    else
      var last := favs[|favs| - 1];
      var r := RemoveCity(favs[..|favs| - 1], city);
      assert favs == favs[..|favs| - 1] + [last];
      if last.city == city then r else r + [last]
  }

  /** Removing works entry by entry and keeps the kept entries in their order. */
  lemma {:induction false} RemoveCityConcat(a: seq<FavoriteCity>, b: seq<FavoriteCity>, city: string)
    ensures RemoveCity(a + b, city) == RemoveCity(a, city) + RemoveCity(b, city)
    decreases |b|
  {
    if b == [] {
      assert a + b == a;
    } else {
      var b', last := b[..|b| - 1], b[|b| - 1];
      assert (a + b)[..|a + b| - 1] == a + b' && (a + b)[|a + b| - 1] == last;
      RemoveCityConcat(a, b', city);
      var kept := if last.city == city then [] else [last];
      assert RemoveCity(a + b, city) == RemoveCity(a + b', city) + kept;
      assert RemoveCity(b, city) == RemoveCity(b', city) + kept;
    }
  }

  /** Removing a city keeps keys unique. */
  lemma {:induction false} RemoveCityKeepsUnique(favs: seq<FavoriteCity>, city: string)
    requires UniqueKeys(favs)
    ensures UniqueKeys(RemoveCity(favs, city))
  {
    if favs != [] {
      var prev, last := favs[..|favs| - 1], favs[|favs| - 1];
      assert UniqueKeys(prev) by {
        forall i, j | 0 <= i < j < |prev| ensures Key(prev[i]) != Key(prev[j]) {
          assert prev[i] == favs[i] && prev[j] == favs[j];
        }
      }
      RemoveCityKeepsUnique(prev, city);
      var r := RemoveCity(prev, city);
      if last.city != city {
        var t := r + [last];
        assert RemoveCity(favs, city) == t;
        forall i, j | 0 <= i < j < |t| ensures Key(t[i]) != Key(t[j]) {
          assert t[i] == r[i];
          if j == |r| {
            assert r[i] in prev;
            var q :| 0 <= q < |prev| && prev[q] == r[i];
            assert prev[q] == favs[q];
          } else {
            assert t[j] == r[j];
          }
        }
      } else {
        assert RemoveCity(favs, city) == r;
      }
    }
  }

  /** Removing a city twice is removing it once. */
  lemma {:induction false} RemoveCityIdempotent(favs: seq<FavoriteCity>, city: string)
    ensures RemoveCity(RemoveCity(favs, city), city) == RemoveCity(favs, city)
  {
    if favs != [] {
      var prev, last := favs[..|favs| - 1], favs[|favs| - 1];
      RemoveCityIdempotent(prev, city);
      var r := RemoveCity(prev, city);
      if last.city != city {
        RemoveCityConcat(r, [last], city);
        assert RemoveCity([last], city) == [last] by {
          assert [last][..0] == [];
        }
      }
    }
  }

  /** `favorites.some(fav => fav.city === w.city && fav.country === w.country)`. */
  function SomeSamePlace(favs: seq<FavoriteCity>, w: WeatherData): (b: bool)
    ensures b <==> exists i :: 0 <= i < |favs| && favs[i].city == w.city && favs[i].country == w.country
  {
    if favs == [] then false
    else
      assert forall j :: 1 <= j < |favs| ==> favs[1..][j - 1] == favs[j];
      (favs[0].city == w.city && favs[0].country == w.country) || SomeSamePlace(favs[1..], w)
  }

  /** `isCityFavorite`: false without a card, otherwise whether some entry has the card's city and country. */
  function IsCityFavorite(weatherData: Option<WeatherData>, favs: seq<FavoriteCity>): bool {
    weatherData.Some? && SomeSamePlace(favs, weatherData.value)
  }

  /** The favorite flag is exact field-by-field membership; it implies a key match but a key match does not imply it. */
  lemma IsCityFavoriteIff(weatherData: Option<WeatherData>, favs: seq<FavoriteCity>)
    ensures IsCityFavorite(weatherData, favs) <==>
      weatherData.Some? && FavoriteCity(weatherData.value.city, weatherData.value.country) in favs
    ensures IsCityFavorite(weatherData, favs) ==>
      HasKey(favs, KeyOf(weatherData.value.city, weatherData.value.country))
  {
    if weatherData.Some? {
      var w := weatherData.value;
      var f := FavoriteCity(w.city, w.country);
      if f in favs {
        var i :| 0 <= i < |favs| && favs[i] == f;
        assert favs[i].city == w.city && favs[i].country == w.country;
      }
      if IsCityFavorite(weatherData, favs) {
        var i :| 0 <= i < |favs| && favs[i].city == w.city && favs[i].country == w.country;
        assert favs[i] == f;
        assert Key(favs[i]) == KeyOf(w.city, w.country);
      }
    }
  }

  /** The city `handleRetry` searches again, if any: the current one, when it is non-empty. */
  function Retry(currentCity: string): (search: Option<string>) {
    if currentCity != "" then Some(currentCity) else None
  }

  /** What the main column shows. */
  datatype Panel = Spinner | ErrorPanel(message: string, onRetry: Option<string>) | Content

  /** The main column: the spinner while loading, else the error panel (with a retry when there is a city), else the card and forecast. */
  function MainPanel(s: HookState): Panel {
    if s.loading then Spinner
    else if s.error != "" then ErrorPanel(s.error, Retry(s.currentCity))
    else Content
  }

  /** A retry is offered exactly when there is a current city, and it searches that city. */
  lemma RetryOnlyWithCity(s: HookState)
    requires !s.loading && s.error != ""
    ensures MainPanel(s).ErrorPanel?
    ensures MainPanel(s).onRetry.Some? <==> s.currentCity != ""
    ensures MainPanel(s).onRetry.Some? ==> MainPanel(s).onRetry.value == s.currentCity
  {
  }

  /**
    After a search for a non-empty city that the server answers with a failing
    status, the error panel shows that status's message and its retry searches
    the same city again.
   */
  lemma FailedSearchOffersRetry(s: HookState, city: string, apiKey: Option<string>, status: nat, data: CurrentReply,
    forecastReply: Fetched<seq<ForecastItem>>, dayOf: int -> string)
    requires KeyConfigured(apiKey) && !Ok(status) && city != ""
    ensures MainPanel(AfterSearch(s, city, apiKey, Reply(status, data), forecastReply, dayOf))
      == ErrorPanel(FailureMessage(city, status), Some(city))
  {
    var m := FailureMessage(city, status);
    if status == 404 {
      assert m[0] == 'C';
    } else if status == 401 {
      assert m == InvalidKeyMessage;
      assert |InvalidKeyMessage| > 0;
    } else {
      assert m[0] == 'F';
    }
  }

  /** A search that succeeds shows the card and forecast, never the spinner or an error. */
  lemma SuccessfulSearchShowsContent(s: HookState, city: string, apiKey: Option<string>,
    current: Fetched<CurrentReply>, forecastReply: Fetched<seq<ForecastItem>>, dayOf: int -> string)
    requires KeyConfigured(apiKey) && CurrentSucceeds(current)
    ensures MainPanel(AfterSearch(s, city, apiKey, current, forecastReply, dayOf)) == Content
  {
  }
}
