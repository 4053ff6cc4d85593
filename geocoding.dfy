/** The classification part of geocode (functions/api/__init__.py): the provider's
    decoded JSON response becomes an update fragment with a private status field.
    The HTTP request itself is not modelled; its decoded response is the input. */
module Geocoding {
  import opened Values

  /** One entry of `address_components`. */
  datatype Component = Component(longName: Json, types: seq<string>)

  /** One entry of `results`; `lat` and `lng` are opaque (floating point upstream). */
  datatype Candidate = Candidate(
    locationType: string,
    lat: Json,
    lng: Json,
    formattedAddress: Json,
    components: seq<Component>)

  datatype Response = Response(status: string, results: seq<Candidate>)

  const STATUS_KEY: string := "_private_geocoding_status"

  /** Every key a fragment can hold. */
  const FRAGMENT_KEYS: set<string> := {STATUS_KEY, "lat", "lng", "formatted_address", "city"}

  /** `accuracy in {'ROOFTOP', 'RANGE_INTERPOLATED'}`. */
  predicate Accurate(locationType: string)
  {
    locationType == "ROOFTOP" || locationType == "RANGE_INTERPOLATED"
  }

  predicate IsLocality(c: Component)
  {
    "locality" in c.types
  }

  /** The `long_name` of the last component whose types contain `locality`. */
  function LastLocality(cs: seq<Component>): (r: Option<Json>)
    ensures r.None? <==> forall i :: 0 <= i < |cs| ==> !IsLocality(cs[i])
    ensures r.Some? ==>
              exists i :: && 0 <= i < |cs| && IsLocality(cs[i]) && r.value == cs[i].longName
                          && forall j :: i < j < |cs| ==> !IsLocality(cs[j])
  {
    if cs == [] then None
    else if IsLocality(cs[|cs| - 1]) then Some(cs[|cs| - 1].longName)
    else LastLocality(cs[..|cs| - 1])
  }

  /** `update` before the component loop: the status and, for an accurate match, the
      coordinates and formatted address. */
  function BaseUpdate(c: Candidate): (u: Doc)
    ensures STATUS_KEY in u && "city" !in u
  {
    if Accurate(c.locationType) then
      map[STATUS_KEY := JStr("OK"), "lat" := c.lat, "lng" := c.lng, "formatted_address" := c.formattedAddress]
    else
      map[STATUS_KEY := JStr("INACCURATE")]
  }

  function WithCity(u: Doc, city: Option<Json>): Doc
  {
    match city
    case None => u
    case Some(name) => u["city" := name]
  }

  /** The fragment geocode returns for a provider response. `results[0]` of an `OK`
      response without results raises. */
  function Fragment(resp: Response): (r: Outcome<Doc>)
    ensures resp.status != "OK" ==> r == Ok(map[STATUS_KEY := JStr("INITIAL")])
    ensures r.Ok? ==> STATUS_KEY in r.value && r.value.Keys <= FRAGMENT_KEYS
    ensures resp.status == "OK" && resp.results == [] ==> r == Error
    ensures resp.status == "OK" && resp.results != [] ==>
              var c := resp.results[0];
              && r.Ok?
              && STATUS_KEY in r.value
              && r.value[STATUS_KEY] == JStr(if Accurate(c.locationType) then "OK" else "INACCURATE")
              && (Accurate(c.locationType) ==>
                    && "lat" in r.value && r.value["lat"] == c.lat
                    && "lng" in r.value && r.value["lng"] == c.lng
                    && "formatted_address" in r.value && r.value["formatted_address"] == c.formattedAddress)
              && (!Accurate(c.locationType) ==>
                    "lat" !in r.value && "lng" !in r.value && "formatted_address" !in r.value)
              && ("city" in r.value <==> exists i :: 0 <= i < |c.components| && IsLocality(c.components[i]))
              && ("city" in r.value ==> Some(r.value["city"]) == LastLocality(c.components))
              && r.value.Keys <= FRAGMENT_KEYS
  {
    if resp.status != "OK" then Ok(map[STATUS_KEY := JStr("INITIAL")])
    else if resp.results == [] then Error
    else
      var c := resp.results[0];
      Ok(WithCity(BaseUpdate(c), LastLocality(c.components)))
  }

  /** geocode as the source writes it: the update dictionary is built step by step and
      the component loop lets every later locality overwrite `city`. */
  method Geocode(resp: Response) returns (update: Outcome<Doc>)
    ensures update == Fragment(resp)
  {
    var u := map[STATUS_KEY := JStr("INITIAL")];
    if resp.status == "OK" {
      if resp.results == [] {
        return Error;
      }
      var c := resp.results[0];
      if Accurate(c.locationType) {
        u := u + map[STATUS_KEY := JStr("OK"), "lat" := c.lat, "lng" := c.lng, "formatted_address" := c.formattedAddress];
      } else {
        u := u[STATUS_KEY := JStr("INACCURATE")];
      }
      assert u == BaseUpdate(c);
      var i := 0;
      while i < |c.components|
        invariant 0 <= i <= |c.components|
        invariant u == WithCity(BaseUpdate(c), LastLocality(c.components[..i]))
      {
        assert c.components[..i + 1][..i] == c.components[..i];
        if IsLocality(c.components[i]) {
          u := u["city" := c.components[i].longName];
        }
        i := i + 1;
      }
      assert c.components[..i] == c.components;
    }
    return Ok(u);
  }
}
