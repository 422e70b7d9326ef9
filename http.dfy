/** The two HTTP helpers: session headers and the status check. */
module Http {
  import opened Wrappers
  import opened Json

  /** `HTTPStatus.OK`. */
  const StatusOk := 200

  /** `_build_headers`: the bearer token and the guest token as request headers. */
  function BuildHeaders(authToken: string, guestToken: string): (h: map<string, string>)
    ensures h.Keys == {"Authorization", "x-guest-token"}
    ensures |h["Authorization"]| == 7 + |authToken|
    ensures h["Authorization"][..7] == "Bearer " && h["Authorization"][7..] == authToken
    ensures h["x-guest-token"] == guestToken
  {
    map["Authorization" := "Bearer " + authToken, "x-guest-token" := guestToken]
  }

  /** `_validate_status`: passes exactly when the response status equals the expected one (200 unless given; `None` never matches). */
  function ValidateStatus(status: int, expected: Option<int> := Some(StatusOk)): (r: Result<(), PyError>)
    ensures r.Ok? <==> expected == Some(status)
    ensures r.Err? ==> r.error == ValueError
  {
    if expected.None? || status != expected.value then Err(ValueError) else Ok(())
  }
}
