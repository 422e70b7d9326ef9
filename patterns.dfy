/**
 * The three regular expressions of fowl/__init__.py, as predicates saying
 * where they match, and `re.search` on each of them: the leftmost match,
 * and for a lazy `.+?` the shortest run at that position.
 */
module Patterns {
  import opened Wrappers

  /** Length of the bearer token `TWITTER_AUTH_TOKEN_PATTERN` captures. */
  const TokenLength := 104

  /** The character class `[a-zA-Z0-9%]`. */
  predicate IsTokenChar(c: char) {
    ('a' <= c <= 'z') || ('A' <= c <= 'Z') || ('0' <= c <= '9') || c == '%'
  }

  /** `TWITTER_AUTH_TOKEN_PATTERN`, `"([a-zA-Z0-9%]{104})"`, matches `source` at index `i`. */
  predicate AuthTokenAt(source: string, i: int) {
    && 0 <= i
    && i + TokenLength + 2 <= |source|
    && source[i] == '"'
    && source[i + TokenLength + 1] == '"'
    && forall k | i < k <= i + TokenLength :: IsTokenChar(source[k])
  }

  /** The leftmost index at or after `from` where the token pattern matches. */
  function FindAuthToken(source: string, from: nat): (r: Option<nat>)
    ensures r.Some? ==> from <= r.value && AuthTokenAt(source, r.value)
    ensures forall j | from <= j && (r.None? || j < r.value) :: !AuthTokenAt(source, j)
    decreases |source| - from
  {
    if from + TokenLength + 2 > |source| then None
    else if AuthTokenAt(source, from) then Some(from)
    else FindAuthToken(source, from + 1)
  }

  /** What `.` accepts: no character of `s` is a newline. */
  predicate NoNewline(s: string) {
    forall k | 0 <= k < |s| :: s[k] != '\n'
  }

  /** Two texts without a newline make one without a newline. */
  lemma NoNewlineConcat(a: string, b: string)
    requires NoNewline(a) && NoNewline(b)
    ensures NoNewline(a + b)
  {
    assert forall k | |a| <= k < |a + b| :: (a + b)[k] == b[k - |a|];
  }

  /**
   * `open`, then a run of `n >= 1` characters matched by `.+?`, then
   * `close`, starting at index `i` of `s`.
   */
  predicate LazyAt(s: string, open: string, close: string, i: int, n: int) {
    && 0 <= i
    && 1 <= n
    && i + |open| + n + |close| <= |s|
    && s[i..i + |open|] == open
    && NoNewline(s[i + |open|..i + |open| + n])
    && s[i + |open| + n..i + |open| + n + |close|] == close
  }

  /** The match `re.search` reports: leftmost start, then shortest lazy run. */
  ghost predicate FirstLazy(s: string, open: string, close: string, i: int, n: int) {
    && LazyAt(s, open, close, i, n)
    && (forall j, m | 0 <= j < i :: !LazyAt(s, open, close, j, m))
    && (forall m | 1 <= m < n :: !LazyAt(s, open, close, i, m))
  }

  /** The shortest run of length at least `n` that matches at index `i`. */
  function ShortestRun(s: string, open: string, close: string, i: nat, n: nat): Option<nat>
    requires 1 <= n
    decreases |s| - n
  {
    if i + |open| + n + |close| > |s| then None
    else if LazyAt(s, open, close, i, n) then Some(n)
    else ShortestRun(s, open, close, i, n + 1)
  }

  /** `ShortestRun` finds the least run length, from `n` on, that matches at `i`. */
  lemma {:induction false} ShortestRunIsLeast(s: string, open: string, close: string, i: nat, n: nat)
    requires 1 <= n
    ensures var r := ShortestRun(s, open, close, i, n);
      && (r.Some? ==> n <= r.value && LazyAt(s, open, close, i, r.value))
      && (forall m | n <= m && (r.None? || m < r.value) :: !LazyAt(s, open, close, i, m))
    decreases |s| - n
  {
    if i + |open| + n + |close| <= |s| && !LazyAt(s, open, close, i, n) {
      ShortestRunIsLeast(s, open, close, i, n + 1);
    }
  }

  /** The leftmost start at or after `i` where the lazy pattern matches, with its shortest run. */
  function LazySearch(s: string, open: string, close: string, i: nat): Option<(nat, nat)>
    decreases |s| + 1 - i
  {
    if i > |s| then None
    else match ShortestRun(s, open, close, i, 1)
      case Some(n) => Some((i, n))
      case None => LazySearch(s, open, close, i + 1)
  }

  /** `LazySearch` finds the leftmost start at or after `i`, and the shortest run there. */
  lemma {:induction false} LazySearchIsFirst(s: string, open: string, close: string, i: nat)
    ensures var r := LazySearch(s, open, close, i);
      && (r.Some? ==> i <= r.value.0 && LazyAt(s, open, close, r.value.0, r.value.1))
      && (r.Some? ==> forall m | 1 <= m < r.value.1 :: !LazyAt(s, open, close, r.value.0, m))
      && (forall j, m | i <= j && (r.None? || j < r.value.0) :: !LazyAt(s, open, close, j, m))
    decreases |s| + 1 - i
  {
    if i <= |s| {
      ShortestRunIsLeast(s, open, close, i, 1);
      if ShortestRun(s, open, close, i, 1).None? {
        LazySearchIsFirst(s, open, close, i + 1);
      }
    }
  }

  /** `window.__META_DATA__=` and the `{` that opens group 1 of `TWITTER_METADATA_PATTERN`. */
  const MetadataOpen := "window.__META_DATA__={"
  /** The `}` that closes group 1, then `;`. */
  const MetadataClose := "});"

  /** `TWITTER_METADATA_PATTERN` matches `text` at `i`, its lazy run having length `n`. */
  predicate MetadataAt(text: string, i: int, n: int) {
    LazyAt(text, MetadataOpen, MetadataClose, i, n)
  }

  /** Group 1 of `TWITTER_METADATA_PATTERN.search(text)`, the braced metadata object. */
  function MetadataMatch(text: string): (r: Option<string>)
    ensures r.Some? ==> |r.value| >= 3 && r.value[0] == '{' && r.value[|r.value| - 1] == '}' && NoNewline(r.value)
  {
    LazySearchIsFirst(text, MetadataOpen, MetadataClose, 0);
    match LazySearch(text, MetadataOpen, MetadataClose, 0)
    case None => None
    case Some((i, n)) =>
      var run := text[i + |MetadataOpen|..i + |MetadataOpen| + n];
      NoNewlineConcat("{", run);
      NoNewlineConcat("{" + run, "}");
      Some("{" + run + "}")
  }

  /** The metadata search fails exactly when the pattern matches nowhere, and otherwise reports the leftmost, shortest match. */
  lemma MetadataMatchIsFirst(text: string)
    ensures MetadataMatch(text).None? <==> forall i, n :: !MetadataAt(text, i, n)
    ensures MetadataMatch(text).Some? ==> exists i, n ::
      && FirstLazy(text, MetadataOpen, MetadataClose, i, n)
      && MetadataMatch(text).value == "{" + text[i + |MetadataOpen|..i + |MetadataOpen| + n] + "}"
  {
    LazySearchIsFirst(text, MetadataOpen, MetadataClose, 0);
    match LazySearch(text, MetadataOpen, MetadataClose, 0)
    case None =>
    case Some((i, n)) =>
      assert MetadataAt(text, i, n) && FirstLazy(text, MetadataOpen, MetadataClose, i, n);
  }

  /** `document.cookie="` and the `gt=` that starts group 1 of `TWITTER_GUEST_TOKEN_COOKIE_PATTERN`. */
  const CookieOpen := "document.cookie=\"gt="
  /** The `";` after group 1. */
  const CookieClose := "\";"

  /** `TWITTER_GUEST_TOKEN_COOKIE_PATTERN` matches `text` at `i`, its lazy run having length `n`. */
  predicate GuestCookieAt(text: string, i: int, n: int) {
    LazyAt(text, CookieOpen, CookieClose, i, n)
  }

  /** Group 1 of `TWITTER_GUEST_TOKEN_COOKIE_PATTERN.search(text)`, the `gt=...` cookie string. */
  function GuestCookieMatch(text: string): (r: Option<string>)
    ensures r.Some? ==> |r.value| >= 4 && r.value[..3] == "gt=" && NoNewline(r.value)
  {
    LazySearchIsFirst(text, CookieOpen, CookieClose, 0);
    match LazySearch(text, CookieOpen, CookieClose, 0)
    case None => None
    case Some((i, n)) =>
      var run := text[i + |CookieOpen|..i + |CookieOpen| + n];
      NoNewlineConcat("gt=", run);
      Some("gt=" + run)
  }

  /** The cookie search fails exactly when the pattern matches nowhere, and otherwise reports the leftmost, shortest match. */
  lemma GuestCookieMatchIsFirst(text: string)
    ensures GuestCookieMatch(text).None? <==> forall i, n :: !GuestCookieAt(text, i, n)
    ensures GuestCookieMatch(text).Some? ==> exists i, n ::
      && FirstLazy(text, CookieOpen, CookieClose, i, n)
      && GuestCookieMatch(text).value == "gt=" + text[i + |CookieOpen|..i + |CookieOpen| + n]
  {
    LazySearchIsFirst(text, CookieOpen, CookieClose, 0);
    match LazySearch(text, CookieOpen, CookieClose, 0)
    case None =>
    case Some((i, n)) =>
      assert GuestCookieAt(text, i, n) && FirstLazy(text, CookieOpen, CookieClose, i, n);
  }
}
