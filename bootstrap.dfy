/**
 * Credential bootstrap: `_parse_app_data`, which scans the script elements
 * of the web app's HTML shell for the app script URL, the page metadata and
 * the guest-token cookie, and `_parse_auth_token`, which finds the bearer
 * token in the app script. The HTML parser's output is the sequence of
 * `Script` records. `json.loads` of the metadata is the parameter `loads`,
 * `None` where it raises. The cookie step, `SimpleCookie.load` of the group
 * then `.get("gt").value`, is the parameter `gtCookie`, `None` where any of
 * it fails; every such failure is reported as `AttributeError`.
 */
module Bootstrap {
  import opened Wrappers
  import opened Json
  import opened Sequences
  import opened Patterns

  /** A `<script>` element: its `src` attribute, if any, and its text. */
  datatype Script = Script(src: Option<string>, text: string)

  /** What `_parse_app_data` returns: `(url, metadata, guest_token)`. */
  datatype AppData = AppData(url: string, metadata: Value, guestToken: string)

  /** The loop's accumulators `url`, `metadata` and `guest_token`; `None` is Python's initial `None`. */
  datatype Found = Found(url: Option<string>, metadata: Option<Value>, guestToken: Option<string>)

  const NothingFound := Found(None, None, None)

  /** `part` occurs in `s` starting at index `i`. */
  predicate OccursAt(s: string, part: string, i: int) {
    0 <= i && i + |part| <= |s| && s[i..i + |part|] == part
  }

  /** Python's `part in s` on strings. */
  predicate Contains(s: string, part: string)
    ensures Contains(s, part) <==> exists i :: OccursAt(s, part, i)
    decreases |s|
  {
    if |part| > |s| then false
    else if s[..|part|] == part then
      assert OccursAt(s, part, 0);
      true
    else
      assert forall i | OccursAt(s[1..], part, i) :: OccursAt(s, part, i + 1) by {
        forall i | OccursAt(s[1..], part, i) ensures OccursAt(s, part, i + 1) {
          assert s[1..][i..i + |part|] == s[i + 1..i + 1 + |part|];
        }
      }
      assert forall i | 1 <= i && OccursAt(s, part, i) :: OccursAt(s[1..], part, i - 1) by {
        forall i | 1 <= i && OccursAt(s, part, i) ensures OccursAt(s[1..], part, i - 1) {
          assert s[1..][i - 1..i - 1 + |part|] == s[i..i + |part|];
        }
      }
      Contains(s[1..], part)
  }

  /** `src and "main" in src`: the branch that takes the app script URL. */
  predicate IsMainScript(script: Script) {
    script.src.Some? && script.src.value != "" && Contains(script.src.value, "main")
  }

  /** A script the metadata branch reads: not a main script, and its text matches the metadata pattern. */
  predicate IsMetadataScript(script: Script) {
    !IsMainScript(script) && MetadataMatch(script.text).Some?
  }

  /** A script the guest-cookie branch reads: neither earlier branch applies and the cookie pattern matches. */
  predicate IsGuestCookieScript(script: Script) {
    !IsMainScript(script) && MetadataMatch(script.text).None? && GuestCookieMatch(script.text).Some?
  }

  /** The script makes the loop raise: its metadata does not decode, or its cookie has no `gt` value. */
  predicate Raises(script: Script, loads: string -> Option<Value>, gtCookie: string -> Option<string>) {
    || (IsMetadataScript(script) && loads(MetadataMatch(script.text).value).None?)
    || (IsGuestCookieScript(script) && gtCookie(GuestCookieMatch(script.text).value).None?)
  }

  /**
   * One iteration of the loop of `_parse_app_data`: the `if`/`elif`/`elif`
   * on one script, which sets exactly the accumulator of the branch the
   * script falls in.
   */
  function ExamineScript(found: Found, script: Script, loads: string -> Option<Value>, gtCookie: string -> Option<string>)
    : (r: Result<Found, PyError>)
    ensures r.Err? <==> Raises(script, loads, gtCookie)
    ensures r.Err? ==> r.error == (if IsMetadataScript(script) then JsonDecodeError else AttributeError)
    ensures r.Ok? ==>
      && r.value.url == (if IsMainScript(script) then script.src else found.url)
      && r.value.metadata == (if IsMetadataScript(script) then loads(MetadataMatch(script.text).value) else found.metadata)
      && r.value.guestToken == (if IsGuestCookieScript(script) then gtCookie(GuestCookieMatch(script.text).value) else found.guestToken)
  {
    if IsMainScript(script) then
      Ok(found.(url := script.src))
    else
      match MetadataMatch(script.text)
      case Some(group) =>
        (match loads(group)
         case Some(metadata) => Ok(found.(metadata := Some(metadata)))
         case None => Err(JsonDecodeError))
      case None =>
        match GuestCookieMatch(script.text)
        case Some(group) =>
          (match gtCookie(group)
           case Some(token) => Ok(found.(guestToken := Some(token)))
           case None => Err(AttributeError))
        case None => Ok(found)
  }

  /** The loop of `_parse_app_data` from `found` over `scripts`. */
  function ScanScripts(found: Found, scripts: seq<Script>, loads: string -> Option<Value>, gtCookie: string -> Option<string>)
    : (r: Result<Found, PyError>)
    ensures r.Err? <==> exists k | 0 <= k < |scripts| :: Raises(scripts[k], loads, gtCookie)
    ensures r.Err? ==> r.error == JsonDecodeError || r.error == AttributeError
    decreases |scripts|
  {
    if scripts == [] then Ok(found)
    else
      assert forall k | 0 <= k < |scripts| - 1 :: scripts[1..][k] == scripts[k + 1];
      var next :- ExamineScript(found, scripts[0], loads, gtCookie);
      ScanScripts(next, scripts[1..], loads, gtCookie)
  }

  /** The loop from index `i` is one iteration followed by the loop from `i + 1`. */
  lemma ScanScriptsUnfold(found: Found, scripts: seq<Script>, i: nat, loads: string -> Option<Value>, gtCookie: string -> Option<string>)
    requires i < |scripts|
    ensures ScanScripts(found, scripts[i..], loads, gtCookie) ==
      match ExamineScript(found, scripts[i], loads, gtCookie)
      case Ok(next) => ScanScripts(next, scripts[i + 1..], loads, gtCookie)
      case Err(e) => Err(e)
  {
    assert scripts[i..][0] == scripts[i] && scripts[i..][1..] == scripts[i + 1..];
  }

  /** `if not url or not metadata or not guest_token: raise ValueError`. */
  function FinishAppData(found: Found): (r: Result<AppData, PyError>)
    ensures r.Ok? <==>
      && found.url.Some? && found.url.value != ""
      && found.metadata.Some? && Truthy(found.metadata.value)
      && found.guestToken.Some? && found.guestToken.value != ""
    ensures r.Ok? ==> found == Found(Some(r.value.url), Some(r.value.metadata), Some(r.value.guestToken))
    ensures r.Err? ==> r.error == ValueError
  {
    if || found.url.None? || found.url.value == ""
       || found.metadata.None? || !Truthy(found.metadata.value)
       || found.guestToken.None? || found.guestToken.value == ""
    then Err(ValueError)
    else Ok(AppData(found.url.value, found.metadata.value, found.guestToken.value))
  }

  /** `_parse_app_data` as a function of the script elements. */
  function ExtractAppData(scripts: seq<Script>, loads: string -> Option<Value>, gtCookie: string -> Option<string>)
    : (r: Result<AppData, PyError>)
    ensures r.Ok? ==> r.value.url != "" && Truthy(r.value.metadata) && r.value.guestToken != ""
    ensures (exists k | 0 <= k < |scripts| :: Raises(scripts[k], loads, gtCookie)) <==> r.Err? && r.error != ValueError
  {
    var found :- ScanScripts(NothingFound, scripts, loads, gtCookie);
    FinishAppData(found)
  }

  /** `_parse_app_data`. */
  method ParseAppData(scripts: seq<Script>, loads: string -> Option<Value>, gtCookie: string -> Option<string>)
    returns (r: Result<AppData, PyError>)
    ensures r == ExtractAppData(scripts, loads, gtCookie)
  {
    var url: Option<string> := None;
    var metadata: Option<Value> := None;
    var guestToken: Option<string> := None;
    for i := 0 to |scripts|
      invariant ScanScripts(Found(url, metadata, guestToken), scripts[i..], loads, gtCookie)
             == ScanScripts(NothingFound, scripts, loads, gtCookie)
    {
      ScanScriptsUnfold(Found(url, metadata, guestToken), scripts, i, loads, gtCookie);
      ghost var before := Found(url, metadata, guestToken);
      var element := scripts[i];
      var metadataMatch := MetadataMatch(element.text);
      var guestTokenCookieMatch := GuestCookieMatch(element.text);
      if IsMainScript(element) {
        url := element.src;
      } else if metadataMatch.Some? {
        var decoded := loads(metadataMatch.value);
        if decoded.None? {
          assert ExamineScript(before, element, loads, gtCookie) == Err(JsonDecodeError);
          return Err(JsonDecodeError);
        }
        metadata := decoded;
      } else if guestTokenCookieMatch.Some? {
        var token := gtCookie(guestTokenCookieMatch.value);
        if token.None? {
          assert ExamineScript(before, element, loads, gtCookie) == Err(AttributeError);
          return Err(AttributeError);
        }
        guestToken := token;
      }
      assert ExamineScript(before, element, loads, gtCookie) == Ok(Found(url, metadata, guestToken));
    }
    assert scripts[|scripts|..] == [];
    r := FinishAppData(Found(url, metadata, guestToken));
  }

  /** When the loop ends normally, `url` is the `src` of the last main script, or what it was if there is none. */
  lemma {:induction false} ScanKeepsLastUrl(
    found: Found, scripts: seq<Script>, loads: string -> Option<Value>, gtCookie: string -> Option<string>)
    ensures ScanScripts(found, scripts, loads, gtCookie).Ok? ==>
      ScanScripts(found, scripts, loads, gtCookie).value.url ==
        match LastWhere(scripts, IsMainScript)
        case Some(k) => scripts[k].src
        case None => found.url
    decreases |scripts|
  {
    if scripts != [] && ScanScripts(found, scripts, loads, gtCookie).Ok? {
      var x, rest := scripts[0], scripts[1..];
      assert scripts == [x] + rest;
      LastWhereCons(x, rest, IsMainScript);
      ScanKeepsLastUrl(ExamineScript(found, x, loads, gtCookie).value, rest, loads, gtCookie);
      if LastWhere(rest, IsMainScript).Some? {
        assert scripts[LastWhere(rest, IsMainScript).value + 1] == rest[LastWhere(rest, IsMainScript).value];
      }
    }
  }

  /** When the loop ends normally, `metadata` is the decoded group of the last metadata script, or what it was if there is none. */
  lemma {:induction false} ScanKeepsLastMetadata(
    found: Found, scripts: seq<Script>, loads: string -> Option<Value>, gtCookie: string -> Option<string>)
    ensures ScanScripts(found, scripts, loads, gtCookie).Ok? ==>
      ScanScripts(found, scripts, loads, gtCookie).value.metadata ==
        match LastWhere(scripts, IsMetadataScript)
        case Some(k) => loads(MetadataMatch(scripts[k].text).value)
        case None => found.metadata
    decreases |scripts|
  {
    if scripts != [] && ScanScripts(found, scripts, loads, gtCookie).Ok? {
      var x, rest := scripts[0], scripts[1..];
      assert scripts == [x] + rest;
      LastWhereCons(x, rest, IsMetadataScript);
      ScanKeepsLastMetadata(ExamineScript(found, x, loads, gtCookie).value, rest, loads, gtCookie);
      if LastWhere(rest, IsMetadataScript).Some? {
        assert scripts[LastWhere(rest, IsMetadataScript).value + 1] == rest[LastWhere(rest, IsMetadataScript).value];
      }
    }
  }

  /** When the loop ends normally, `guest_token` is the cookie value of the last guest-cookie script, or what it was if there is none. */
  lemma {:induction false} ScanKeepsLastGuestToken(
    found: Found, scripts: seq<Script>, loads: string -> Option<Value>, gtCookie: string -> Option<string>)
    ensures ScanScripts(found, scripts, loads, gtCookie).Ok? ==>
      ScanScripts(found, scripts, loads, gtCookie).value.guestToken ==
        match LastWhere(scripts, IsGuestCookieScript)
        case Some(k) => gtCookie(GuestCookieMatch(scripts[k].text).value)
        case None => found.guestToken
    decreases |scripts|
  {
    if scripts != [] && ScanScripts(found, scripts, loads, gtCookie).Ok? {
      var x, rest := scripts[0], scripts[1..];
      assert scripts == [x] + rest;
      LastWhereCons(x, rest, IsGuestCookieScript);
      ScanKeepsLastGuestToken(ExamineScript(found, x, loads, gtCookie).value, rest, loads, gtCookie);
      if LastWhere(rest, IsGuestCookieScript).Some? {
        assert scripts[LastWhere(rest, IsGuestCookieScript).value + 1] == rest[LastWhere(rest, IsGuestCookieScript).value];
      }
    }
  }

  /**
   * Every result of `_parse_app_data` comes from the last script of each
   * kind: the URL from the last main script, the metadata from the last
   * metadata script, the guest token from the last guest-cookie script.
   */
  lemma AppDataFromLastScripts(
    scripts: seq<Script>, loads: string -> Option<Value>, gtCookie: string -> Option<string>, data: AppData)
    requires ExtractAppData(scripts, loads, gtCookie) == Ok(data)
    ensures LastWhere(scripts, IsMainScript).Some?
    ensures LastWhere(scripts, IsMetadataScript).Some?
    ensures LastWhere(scripts, IsGuestCookieScript).Some?
    ensures scripts[LastWhere(scripts, IsMainScript).value].src == Some(data.url)
    ensures loads(MetadataMatch(scripts[LastWhere(scripts, IsMetadataScript).value].text).value) == Some(data.metadata)
    ensures gtCookie(GuestCookieMatch(scripts[LastWhere(scripts, IsGuestCookieScript).value].text).value) == Some(data.guestToken)
  {
    ScanKeepsLastUrl(NothingFound, scripts, loads, gtCookie);
    ScanKeepsLastMetadata(NothingFound, scripts, loads, gtCookie);
    ScanKeepsLastGuestToken(NothingFound, scripts, loads, gtCookie);
  }

  /**
   * Conversely, when no script makes the loop raise, and the last main
   * script, the last metadata script and the last guest-cookie script all
   * exist and give a truthy value, `_parse_app_data` returns those three.
   */
  lemma AppDataOfLastScripts(scripts: seq<Script>, loads: string -> Option<Value>, gtCookie: string -> Option<string>)
    requires forall k | 0 <= k < |scripts| :: !Raises(scripts[k], loads, gtCookie)
    requires LastWhere(scripts, IsMainScript).Some?
    requires LastWhere(scripts, IsMetadataScript).Some?
    requires LastWhere(scripts, IsGuestCookieScript).Some?
    requires var metadata := loads(MetadataMatch(scripts[LastWhere(scripts, IsMetadataScript).value].text).value);
      metadata.Some? && Truthy(metadata.value)
    requires var token := gtCookie(GuestCookieMatch(scripts[LastWhere(scripts, IsGuestCookieScript).value].text).value);
      token.Some? && token.value != ""
    ensures ExtractAppData(scripts, loads, gtCookie) == Ok(AppData(
      scripts[LastWhere(scripts, IsMainScript).value].src.value,
      loads(MetadataMatch(scripts[LastWhere(scripts, IsMetadataScript).value].text).value).value,
      gtCookie(GuestCookieMatch(scripts[LastWhere(scripts, IsGuestCookieScript).value].text).value).value))
  {
    ScanKeepsLastUrl(NothingFound, scripts, loads, gtCookie);
    ScanKeepsLastMetadata(NothingFound, scripts, loads, gtCookie);
    ScanKeepsLastGuestToken(NothingFound, scripts, loads, gtCookie);
  }

  /** Without a script whose `src` contains "main", `_parse_app_data` raises. */
  lemma AppDataNeedsMainScript(scripts: seq<Script>, loads: string -> Option<Value>, gtCookie: string -> Option<string>)
    requires forall i | 0 <= i < |scripts| :: !IsMainScript(scripts[i])
    ensures ExtractAppData(scripts, loads, gtCookie).Err?
  {
    if ExtractAppData(scripts, loads, gtCookie).Ok? {
      AppDataFromLastScripts(scripts, loads, gtCookie, ExtractAppData(scripts, loads, gtCookie).value);
    }
  }

  /** The text of a script taken by the `src` branch is never examined: replacing it changes nothing. */
  lemma {:induction false} MainScriptTextIgnored(
    found: Found, scripts: seq<Script>, k: nat, text: string,
    loads: string -> Option<Value>, gtCookie: string -> Option<string>)
    requires k < |scripts| && IsMainScript(scripts[k])
    ensures ScanScripts(found, scripts[k := scripts[k].(text := text)], loads, gtCookie)
         == ScanScripts(found, scripts, loads, gtCookie)
    decreases k
  {
    var edited := scripts[k := scripts[k].(text := text)];
    if k == 0 {
      assert edited[0] == scripts[0].(text := text) && edited[1..] == scripts[1..];
      assert ExamineScript(found, edited[0], loads, gtCookie) == ExamineScript(found, scripts[0], loads, gtCookie);
    } else {
      assert edited[0] == scripts[0];
      assert edited[1..] == scripts[1..][k - 1 := scripts[k].(text := text)];
      match ExamineScript(found, scripts[0], loads, gtCookie)
      case Ok(next) => MainScriptTextIgnored(next, scripts[1..], k - 1, text, loads, gtCookie);
      case Err(_) =>
    }
  }

  /** `_parse_auth_token`: the leftmost quoted run of exactly 104 characters from `[A-Za-z0-9%]`. */
  function ParseAuthToken(source: string): (r: Result<string, PyError>)
    ensures r.Err? <==> forall i :: !AuthTokenAt(source, i)
    ensures r.Err? ==> r.error == ValueError
    ensures r.Ok? ==> |r.value| == TokenLength && forall c | c in r.value :: IsTokenChar(c)
    ensures r.Ok? ==> exists i ::
      && AuthTokenAt(source, i)
      && r.value == source[i + 1..i + 1 + TokenLength]
      && forall j | 0 <= j < i :: !AuthTokenAt(source, j)
  {
    match FindAuthToken(source, 0)
    case None => Err(ValueError)
    case Some(i) =>
      var token := source[i + 1..i + 1 + TokenLength];
      assert forall c | c in token :: IsTokenChar(c) by {
        forall c | c in token ensures IsTokenChar(c) {
          var k :| 0 <= k < |token| && token[k] == c;
          assert token[k] == source[i + 1 + k];
        }
      }
      Ok(token)
  }
}
