/** `SearchEngine`: power-cycles the radio, then hands over to `SearchApi`. */
module SearchEngine {
  import opened Common
  import opened Events
  import SearchApi

  /** `SearchEngine.search()`. */
  function Search(radioOn: bool, api: SearchApi.Api, inputs: seq<SearchApi.Input>): (r: SearchApi.Run)
    ensures var k := |ResetRadio(radioOn)|;
            k < |r.effects| && r.effects[k] == StartDiscovery
            && RadioAfter(radioOn, r.effects[..k])
            && forall j :: 0 <= j < k ==> r.effects[j] == TurnOn || r.effects[j] == TurnOff
    ensures Count(TurnOn, r.effects) == 1 && Count(TurnOff, r.effects) == (if radioOn then 1 else 0)
    ensures RadioAfter(radioOn, r.effects)
    ensures r.events == SearchApi.Search(api, inputs).events && r.ending == SearchApi.Search(api, inputs).ending
  {
    var reset := ResetRadio(radioOn);
    var s := SearchApi.Search(api, inputs);
    SearchApi.FeedCalls(SearchApi.Api(false), inputs);
    assert s.effects == [StartDiscovery] + SearchApi.Feed(SearchApi.Api(false), inputs).effects;
    assert SearchApi.OnlyDiscoveryCalls(s.effects);
    CountAbsent(TurnOn, s.effects);
    CountAbsent(TurnOff, s.effects);
    CountAppend(TurnOn, reset, s.effects);
    CountAppend(TurnOff, reset, s.effects);
    assert (reset + s.effects)[..|reset|] == reset;
    PowerUnchanged(true, s.effects);
    RadioAfterAppend(radioOn, reset, s.effects);
    s.(effects := reset + s.effects)
  }

  /** `SearchEngine.stop()`: exactly one `stop()` on the API. */
  function Stop(api: SearchApi.Api): (r: SearchApi.Stepped)
    ensures r.api.stopRequested && r.effects == [CancelDiscovery]
  {
    SearchApi.Stop(api)
  }
}
