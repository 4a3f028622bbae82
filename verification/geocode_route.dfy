/**
 * The reverse-geocoding proxy `GET /api/geocode/reverse`
 * (backend/routes/geocode.js): check the server's Naver credentials, then
 * the query, then forward the point to Naver and relay its answer.
 */
module GeocodeRoute {
  import opened Wrappers

  const CredentialsMissing := "Naver Maps API credentials are not configured on the server."
  const PointRequired := "Latitude and longitude are required."
  const UpstreamFailed := "Failed to fetch data from Naver API."
  const ReverseOrders := "admcode,addr,roadaddr"

  /** The two environment variables holding the Naver client id and secret. */
  datatype Credentials = Credentials(clientId: Option<string>, clientSecret: Option<string>)

  /** What the proxy sends to Naver's reverse geocoder. */
  datatype NaverRequest = NaverRequest(coords: string, output: string, orders: string,
                                       clientId: string, clientSecret: string)

  /** Naver either answers with a body, or the request throws, with the upstream status when there was a response. */
  datatype NaverReply = Answered(body: string) | Failed(status: Option<int>)

  /** Naver wants the point as `longitude,latitude`. */
  function Coords(latitude: string, longitude: string): (r: string)
    ensures |r| == |longitude| + 1 + |latitude|
    ensures r[|longitude|] == ','
    ensures r[..|longitude|] == longitude && r[|longitude| + 1..] == latitude
  {
    longitude + "," + latitude
  }

  function IndexOfComma(s: string): (r: Option<nat>)
    ensures r.Some? ==> r.value < |s| && s[r.value] == ',' && ',' !in s[..r.value]
    ensures r.None? ==> ',' !in s
  {
    if |s| == 0 then None
    else if s[0] == ',' then Some(0)
    else match IndexOfComma(s[1..])
      case None => None
      case Some(i) =>
        assert s[..i + 1] == [s[0]] + s[1..][..i];
        Some(i + 1)
  }

  /** How the receiver splits `coords` back into (longitude, latitude): at the first comma. */
  function SplitCoords(coords: string): (r: Option<(string, string)>)
    ensures r.Some? ==> coords == r.value.0 + "," + r.value.1 && ',' !in r.value.0
    ensures r.None? <==> ',' !in coords
  {
    match IndexOfComma(coords)
    case None => None
    case Some(i) =>
      assert coords == coords[..i] + "," + coords[i + 1..];
      Some((coords[..i], coords[i + 1..]))
  }

  /** The point survives the trip to Naver whenever the longitude text has no comma of its own. */
  lemma CoordsRoundTrip(latitude: string, longitude: string)
    requires ',' !in longitude
    ensures SplitCoords(Coords(latitude, longitude)) == Some((longitude, latitude))
  {
    var c := Coords(latitude, longitude);
    var r := SplitCoords(c);
    assert c[|longitude|] == ',';
    assert r.Some?;
    var (a, b) := r.value;
    assert forall k :: 0 <= k < |a| ==> c[k] == a[k] != ',';
    assert forall k :: 0 <= k < |longitude| ==> c[k] == longitude[k] != ',';
    assert c[|a|] == ',' && c[|longitude|] == ',';
    assert |a| == |longitude|;
    assert a == c[..|a|] == longitude;
    assert b == c[|a| + 1..] == latitude;
  }

  /** `error.response?.status || 500`: a missing or zero upstream status becomes 500. */
  function ErrorStatus(status: Option<int>): (r: int)
    ensures r != 0
    ensures status.Some? && status.value != 0 ==> r == status.value
    ensures r != 500 ==> status == Some(r)
  {
    if status.Some? && status.value != 0 then status.value else 500
  }

  /**
   * The handler. The credentials are checked before the query, and Naver is
   * only asked once both checks pass; the body it answers with is relayed
   * unchanged.
   */
  function Reverse(env: Credentials, latitude: Option<string>, longitude: Option<string>,
                   naver: NaverRequest -> NaverReply): (r: Response<string>)
    ensures !Truthy(env.clientId) || !Truthy(env.clientSecret) ==> r == Err(500, CredentialsMissing)
    ensures Truthy(env.clientId) && Truthy(env.clientSecret) && !(Truthy(latitude) && Truthy(longitude)) ==>
              r == Err(400, PointRequired)
    ensures r.Ok? <==> Truthy(env.clientId) && Truthy(env.clientSecret) && Truthy(latitude) && Truthy(longitude)
                       && naver(NaverRequest(Coords(latitude.value, longitude.value), "json", ReverseOrders,
                                             env.clientId.value, env.clientSecret.value)).Answered?
    ensures r.Ok? ==>
              && r.status == 200
              && r.value == naver(NaverRequest(Coords(latitude.value, longitude.value), "json", ReverseOrders,
                                               env.clientId.value, env.clientSecret.value)).body
    ensures r.Err? && r.status != 500 && r.status != 400 ==> r.message == UpstreamFailed
    ensures Truthy(env.clientId) && Truthy(env.clientSecret) && Truthy(latitude) && Truthy(longitude) ==>
              var reply := naver(NaverRequest(Coords(latitude.value, longitude.value), "json", ReverseOrders,
                                              env.clientId.value, env.clientSecret.value));
              reply.Failed? ==> r == Err(ErrorStatus(reply.status), UpstreamFailed)
  {
    if !Truthy(env.clientId) || !Truthy(env.clientSecret) then Err(500, CredentialsMissing)
    else if !Truthy(latitude) || !Truthy(longitude) then Err(400, PointRequired)
    else
      var request := NaverRequest(Coords(latitude.value, longitude.value), "json", ReverseOrders,
                                  env.clientId.value, env.clientSecret.value);
      match naver(request)
      case Answered(body) => Ok(200, body)
      case Failed(status) => Err(ErrorStatus(status), UpstreamFailed)
  }

  /**
   * Once the checks pass, an upstream failure is answered with the upstream's
   * own status when it has a non-zero one, and with 500 otherwise; the
   * message is the same in both cases.
   */
  lemma UpstreamStatusIsRelayed(env: Credentials, latitude: string, longitude: string,
                                naver: NaverRequest -> NaverReply, status: Option<int>)
    requires Truthy(env.clientId) && Truthy(env.clientSecret) && latitude != "" && longitude != ""
    requires naver(NaverRequest(Coords(latitude, longitude), "json", ReverseOrders,
                                env.clientId.value, env.clientSecret.value)) == Failed(status)
    ensures status.Some? && status.value != 0 ==>
              Reverse(env, Some(latitude), Some(longitude), naver) == Err(status.value, UpstreamFailed)
    ensures status.None? || status == Some(0) ==>
              Reverse(env, Some(latitude), Some(longitude), naver) == Err(500, UpstreamFailed)
  {
    assert Truthy(Some(latitude)) && Truthy(Some(longitude));
  }
}
