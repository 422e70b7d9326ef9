/**
 * `TwitterGraphQl`: the GraphQL endpoint URL, the query variables and the
 * feature flags of the two operations the client issues. `json.dumps` is
 * the parameter `dumps`.
 */
module GraphQl {
  import opened Wrappers
  import opened Json

  const BaseUrl := "https://twitter.com/i/api/graphql"
  const UserByScreenNameId := "pVrmNaXcxPjisIvKtLDMEA"
  const UserTweetsId := "WzJjibAcDa-oCjCcLOotcg"
  /** Page size used when no count, or a zero count, is given. */
  const DefaultCount := 40

  /** What a builder returns: the endpoint URL and the query parameters. */
  datatype Request = Request(url: string, params: map<string, string>)

  /** The keys every `tweets` request carries, whatever its arguments. */
  const TimelineKeys: set<string> := {
    "userId", "count", "includePromotedContent",
    "withQuickPromoteEligibilityTweetFields", "withVoice", "withV2Timeline"
  }

  const UserFeatures: map<string, Value> := map[
    "blue_business_profile_image_shape_enabled" := Bool(true),
    "responsive_web_graphql_exclude_directive_enabled" := Bool(true),
    "verified_phone_label_enabled" := Bool(false),
    "highlights_tweets_tab_ui_enabled" := Bool(false),
    "creator_subscriptions_tweet_preview_api_enabled" := Bool(false),
    "responsive_web_graphql_skip_user_profile_image_extensions_enabled" := Bool(false),
    "responsive_web_graphql_timeline_navigation_enabled" := Bool(true)
  ]

  const TweetsFeatures: map<string, Value> := map[
    "rweb_lists_timeline_redesign_enabled" := Bool(false),
    "blue_business_profile_image_shape_enabled" := Bool(true),
    "responsive_web_graphql_exclude_directive_enabled" := Bool(true),
    "verified_phone_label_enabled" := Bool(false),
    "creator_subscriptions_tweet_preview_api_enabled" := Bool(false),
    "responsive_web_graphql_timeline_navigation_enabled" := Bool(true),
    "responsive_web_graphql_skip_user_profile_image_extensions_enabled" := Bool(false),
    "tweetypie_unmention_optimization_enabled" := Bool(true),
    "vibe_api_enabled" := Bool(true),
    "responsive_web_edit_tweet_api_enabled" := Bool(true),
    "graphql_is_translatable_rweb_tweet_is_translatable_enabled" := Bool(true),
    "view_counts_everywhere_api_enabled" := Bool(true),
    "longform_notetweets_consumption_enabled" := Bool(true),
    "tweet_awards_web_tipping_enabled" := Bool(false),
    "freedom_of_speech_not_reach_fetch_enabled" := Bool(true),
    "standardized_nudges_misinfo" := Bool(true),
    "tweet_with_visibility_results_prefer_gql_limited_actions_policy_enabled" := Bool(false),
    "interactive_text_enabled" := Bool(true),
    "responsive_web_text_conversations_enabled" := Bool(false),
    "longform_notetweets_rich_text_read_enabled" := Bool(true),
    "longform_notetweets_inline_media_enabled" := Bool(false),
    "responsive_web_enhance_cards_enabled" := Bool(false)
  ]

  /** The URL of operation `name` with persisted-query id `id`. */
  function EndpointUrl(id: string, name: string): (url: string)
    ensures |url| == |BaseUrl| + |id| + |name| + 2
    ensures url[..|BaseUrl|] == BaseUrl
    ensures url[|BaseUrl|..] == "/" + id + "/" + name
  {
    BaseUrl + "/" + id + "/" + name
  }

  /** `_to_http_params`: both maps, each encoded as one JSON text. */
  function ToHttpParams(variables: map<string, Value>, features: map<string, Value>, dumps: Value -> string): (params: map<string, string>)
    ensures params.Keys == {"variables", "features"}
    ensures params["variables"] == dumps(Object(variables))
    ensures params["features"] == dumps(Object(features))
  {
    map["variables" := dumps(Object(variables)), "features" := dumps(Object(features))]
  }

  /** `user_by_username`. */
  function UserByUsername(username: string, dumps: Value -> string): (r: Request)
    ensures r.url == EndpointUrl(UserByScreenNameId, "UserByScreenName")
    ensures r.params == ToHttpParams(map["screen_name" := String(username)], UserFeatures, dumps)
  {
    Request(BaseUrl + "/" + UserByScreenNameId + "/UserByScreenName",
            ToHttpParams(map["screen_name" := String(username)], UserFeatures, dumps))
  }

  /** With an encoder that keeps distinct values apart, the lookup request determines the handle. */
  lemma UserByUsernameInjective(u1: string, u2: string, dumps: Value -> string)
    requires forall a: Value, b: Value :: dumps(a) == dumps(b) ==> a == b
    requires UserByUsername(u1, dumps) == UserByUsername(u2, dumps)
    ensures u1 == u2
  {
    var p1 := UserByUsername(u1, dumps).params;
    var p2 := UserByUsername(u2, dumps).params;
    assert dumps(Object(map["screen_name" := String(u1)])) == p1["variables"] == p2["variables"];
    assert map["screen_name" := String(u1)]["screen_name"] == String(u1);
  }

  /** `count or 40`. */
  function PageSize(count: Option<int>): (n: int)
    ensures n != 0
    ensures count.Some? && count.value != 0 ==> n == count.value
    ensures count.None? || count.value == 0 ==> n == DefaultCount
  {
    match count
    case Some(c) => if c != 0 then c else DefaultCount
    case None => DefaultCount
  }

  /** `if cursor:` — a cursor was given and is not the empty string. */
  predicate HasCursor(cursor: Option<string>) {
    cursor.Some? && cursor.value != ""
  }

  /** The `variables` dict `tweets` sends. */
  function TimelineVariables(userId: string, count: Option<int>, cursor: Option<string>): (v: map<string, Value>)
    ensures v.Keys == if HasCursor(cursor) then TimelineKeys + {"cursor"} else TimelineKeys
    ensures v["userId"] == String(userId)
    ensures v["count"] == Number(PageSize(count))
    ensures forall k | k in TimelineKeys - {"userId", "count"} :: v[k] == Bool(true)
    ensures "cursor" in v <==> HasCursor(cursor)
    ensures "cursor" in v ==> v["cursor"] == String(cursor.value)
  {
    var fixed := map[
      "userId" := String(userId),
      "count" := Number(PageSize(count)),
      "includePromotedContent" := Bool(true),
      "withQuickPromoteEligibilityTweetFields" := Bool(true),
      "withVoice" := Bool(true),
      "withV2Timeline" := Bool(true)
    ];
    if HasCursor(cursor) then fixed["cursor" := String(cursor.value)] else fixed
  }

  /** `tweets`: builds the variables dict, then adds the cursor to it in place when one is given. */
  method Tweets(userId: string, count: Option<int>, cursor: Option<string>, dumps: Value -> string) returns (r: Request)
    ensures r.url == EndpointUrl(UserTweetsId, "UserTweets")
    ensures r.params == ToHttpParams(TimelineVariables(userId, count, cursor), TweetsFeatures, dumps)
  {
    var url := BaseUrl + "/" + UserTweetsId + "/UserTweets";
    var variables := map[
      "userId" := String(userId),
      "count" := Number(PageSize(count)),
      "includePromotedContent" := Bool(true),
      "withQuickPromoteEligibilityTweetFields" := Bool(true),
      "withVoice" := Bool(true),
      "withV2Timeline" := Bool(true)
    ];
    if HasCursor(cursor) {
      variables := variables["cursor" := String(cursor.value)];
    }
    r := Request(url, ToHttpParams(variables, TweetsFeatures, dumps));
  }
}
