/**
 * Decoding of GraphQL responses: `_parse_user`, `_parse_tweet_cursor` and
 * `_parse_tweets`, the timeline decoder that keeps the entries of the last
 * `TimelineAddEntries` instruction and takes its final two entries as the
 * top and bottom pagination cursors.
 */
module Timeline {
  import opened Wrappers
  import opened Json
  import opened Sequences

  const AddEntriesType := "TimelineAddEntries"

  /** What `_parse_tweets` returns: `(entries, cursor_top, cursor_bottom)`. */
  datatype Page = Page(entries: seq<Value>, cursorTop: Value, cursorBottom: Value)

  /** `_parse_user`: the user node of a user-lookup response. */
  function ParseUser(data: Value): (r: Result<Value, PyError>)
    ensures r.Ok? <==>
      && data.Object? && "data" in data.fields
      && data.fields["data"].Object? && "user" in data.fields["data"].fields
      && data.fields["data"].fields["user"].Object? && "result" in data.fields["data"].fields["user"].fields
    ensures r.Ok? ==> r.value == data.fields["data"].fields["user"].fields["result"]
  {
    var d :- Get(data, "data");
    var user :- Get(d, "user");
    Get(user, "result")
  }

  /** The response envelope `{"data": {"user": {"result": node}}}`. */
  function UserEnvelope(node: Value): Value {
    Object(map["data" := Object(map["user" := Object(map["result" := node])])])
  }

  /** `_parse_user` recovers the node its envelope wraps. */
  lemma ParseUserEnvelope(node: Value)
    ensures ParseUser(UserEnvelope(node)) == Ok(node)
  {
  }

  /** `_parse_tweet_cursor`: the `content.value` of a cursor entry. */
  function ParseTweetCursor(cursor: Value): (r: Result<Value, PyError>)
    ensures r.Ok? <==>
      && cursor.Object? && "content" in cursor.fields
      && cursor.fields["content"].Object? && "value" in cursor.fields["content"].fields
    ensures r.Ok? ==> r.value == cursor.fields["content"].fields["value"]
  {
    var content :- Get(cursor, "content");
    Get(content, "value")
  }

  /** `data["data"]["user"]["result"]["timeline_v2"]["timeline"]["instructions"]`, as the items a `for` loop visits. */
  function TimelineInstructions(data: Value): (r: Result<seq<Value>, PyError>)
    ensures r.Ok? <==>
      && ParseUser(data).Ok?
      && var user := ParseUser(data).value;
      && user.Object? && "timeline_v2" in user.fields
      && user.fields["timeline_v2"].Object? && "timeline" in user.fields["timeline_v2"].fields
      && var timeline := user.fields["timeline_v2"].fields["timeline"];
      && timeline.Object? && "instructions" in timeline.fields
      && Iterate(timeline.fields["instructions"]).Ok?
    ensures r.Ok? ==>
      r.value == Iterate(ParseUser(data).value.fields["timeline_v2"].fields["timeline"].fields["instructions"]).value
    ensures r.Err? ==> r.error != UnboundLocalError
  {
    var d :- Get(data, "data");
    var user :- Get(d, "user");
    var result :- Get(user, "result");
    var timeline2 :- Get(result, "timeline_v2");
    var timeline :- Get(timeline2, "timeline");
    var instructions :- Get(timeline, "instructions");
    Iterate(instructions)
  }

  /** An instruction of type `TimelineAddEntries`. */
  predicate IsAddEntries(instruction: Value) {
    instruction.Object? && "type" in instruction.fields && instruction.fields["type"] == String(AddEntriesType)
  }

  /** An instruction the loop gets through: a dict with a type, and entries Python can slice if it adds entries. */
  predicate WellFormed(instruction: Value) {
    && instruction.Object?
    && "type" in instruction.fields
    && (IsAddEntries(instruction) ==>
          "entries" in instruction.fields && AsSequence(instruction.fields["entries"]).Ok?)
  }

  /** The loop's variables: `entries`, and `cursors`, which is unbound (`None`) until an add-entries instruction. */
  datatype Scan = Scan(entries: seq<Value>, cursors: Option<seq<Value>>)

  const Unscanned := Scan([], None)

  /** The state an add-entries instruction with items `items` leaves behind. */
  function AfterAddEntries(items: seq<Value>): Scan {
    Scan(DropLastTwo(items), Some(LastTwo(items)))
  }

  /**
   * One iteration of the loop of `_parse_tweets`: an add-entries instruction
   * replaces both variables, whatever they held; any other keeps them.
   */
  function Step(s: Scan, instruction: Value): (r: Result<Scan, PyError>)
    ensures r.Ok? <==> WellFormed(instruction)
    ensures r.Ok? && !IsAddEntries(instruction) ==> r.value == s
    ensures r.Ok? && IsAddEntries(instruction) ==>
      r.value == AfterAddEntries(AsSequence(instruction.fields["entries"]).value)
    ensures r.Err? ==> r.error != UnboundLocalError
  {
    var kind :- Get(instruction, "type");
    if kind == String(AddEntriesType) then
      var raw :- Get(instruction, "entries");
      var items :- AsSequence(raw);
      Ok(Scan(DropLastTwo(items), Some(LastTwo(items))))
    else
      Ok(s)
  }

  /** The loop of `_parse_tweets` from state `s` over `instructions`. */
  function ScanInstructions(s: Scan, instructions: seq<Value>): (r: Result<Scan, PyError>)
    ensures r.Ok? <==> forall k | 0 <= k < |instructions| :: WellFormed(instructions[k])
    ensures r.Err? ==> r.error != UnboundLocalError
    decreases |instructions|
  {
    if instructions == [] then Ok(s)
    else
      assert forall k | 0 <= k < |instructions| - 1 :: instructions[1..][k] == instructions[k + 1];
      var next :- Step(s, instructions[0]);
      ScanInstructions(next, instructions[1..])
  }

  /** The lines after the loop: `cursors[0]` and `cursors[1]` decoded as cursors. */
  function Finish(s: Scan): (r: Result<Page, PyError>)
    ensures r.Ok? <==>
      && s.cursors.Some? && |s.cursors.value| >= 2
      && ParseTweetCursor(s.cursors.value[0]).Ok? && ParseTweetCursor(s.cursors.value[1]).Ok?
    ensures r.Ok? ==> r.value == Page(s.entries, ParseTweetCursor(s.cursors.value[0]).value, ParseTweetCursor(s.cursors.value[1]).value)
    ensures r == Err(UnboundLocalError) <==> s.cursors.None?
  {
    match s.cursors
    case None => Err(UnboundLocalError)
    case Some(cursors) =>
      if |cursors| < 1 then Err(IndexError)
      else
        var top :- ParseTweetCursor(cursors[0]);
        if |cursors| < 2 then Err(IndexError)
        else
          var bottom :- ParseTweetCursor(cursors[1]);
          Ok(Page(s.entries, top, bottom))
  }

  /** `_parse_tweets` as a function of the response. */
  function DecodeTweets(data: Value): (r: Result<Page, PyError>)
    ensures r == Err(UnboundLocalError) <==>
      && TimelineInstructions(data).Ok?
      && var instructions := TimelineInstructions(data).value;
      && (forall k | 0 <= k < |instructions| :: WellFormed(instructions[k]))
      && (forall k | 0 <= k < |instructions| :: !IsAddEntries(instructions[k]))
  {
    var instructions :- TimelineInstructions(data);
    var s :- ScanInstructions(Unscanned, instructions);
    ScanEndsAtLastAddEntries(Unscanned, instructions);
    Finish(s)
  }

  /** `_parse_tweets`. */
  method ParseTweets(data: Value) returns (r: Result<Page, PyError>)
    ensures r == DecodeTweets(data)
  {
    var found := TimelineInstructions(data);
    if found.Err? {
      return Err(found.error);
    }
    var instructions := found.value;
    var entries: seq<Value> := [];
    var cursors: Option<seq<Value>> := None;
    for i := 0 to |instructions|
      invariant ScanInstructions(Scan(entries, cursors), instructions[i..]) == ScanInstructions(Unscanned, instructions)
    {
      assert instructions[i..][0] == instructions[i] && instructions[i..][1..] == instructions[i + 1..];
      var kind := Get(instructions[i], "type");
      if kind.Err? {
        return Err(kind.error);
      }
      if kind.value == String(AddEntriesType) {
        var raw := Get(instructions[i], "entries");
        if raw.Err? {
          return Err(raw.error);
        }
        var items := AsSequence(raw.value);
        if items.Err? {
          return Err(items.error);
        }
        cursors := Some(LastTwo(items.value));
        entries := DropLastTwo(items.value);
      }
    }
    assert instructions[|instructions|..] == [];
    r := Finish(Scan(entries, cursors));
  }

  /** An instruction of another type can be dropped from anywhere in the list without changing the outcome. */
  lemma {:induction false} ScanSkipsOther(s: Scan, before: seq<Value>, other: Value, after: seq<Value>)
    requires other.Object? && "type" in other.fields && other.fields["type"] != String(AddEntriesType)
    ensures ScanInstructions(s, before + [other] + after) == ScanInstructions(s, before + after)
    decreases |before|
  {
    if before == [] {
      var all := before + [other] + after;
      assert all == [other] + after;
      assert all[0] == other && all[1..] == after;
      assert Step(s, other) == Ok(s);
      assert before + after == after;
    } else {
      var all := before + [other] + after;
      assert all[0] == before[0] && all[1..] == before[1..] + [other] + after;
      assert (before + after)[0] == before[0] && (before + after)[1..] == before[1..] + after;
      match Step(s, before[0])
      case Ok(next) => ScanSkipsOther(next, before[1..], other, after);
      case Err(_) =>
    }
  }

  /** The state the loop ends in, when it ends normally, is set by the last add-entries instruction alone. */
  lemma {:induction false} ScanEndsAtLastAddEntries(s: Scan, instructions: seq<Value>)
    ensures ScanInstructions(s, instructions).Ok? ==>
      match LastWhere(instructions, IsAddEntries)
      case None => ScanInstructions(s, instructions) == Ok(s)
      case Some(k) => ScanInstructions(s, instructions) == Step(Unscanned, instructions[k])
    decreases |instructions|
  {
    if instructions != [] && ScanInstructions(s, instructions).Ok? {
      var x, rest := instructions[0], instructions[1..];
      assert instructions == [x] + rest;
      LastWhereCons(x, rest, IsAddEntries);
      var next := Step(s, x).value;
      ScanEndsAtLastAddEntries(next, rest);
      match LastWhere(rest, IsAddEntries)
      case Some(k) =>
        assert instructions[k + 1] == rest[k];
      case None =>
    }
  }

  /**
   * The page `_parse_tweets` promises: for the last add-entries instruction,
   * whose entries are a list of N >= 2 items, the first N - 2 items in order,
   * then the values of items N - 2 and N - 1 as the top and bottom cursors.
   */
  ghost predicate PageOfLastAddEntries(instructions: seq<Value>, page: Page) {
    match LastWhere(instructions, IsAddEntries)
    case None => false
    case Some(k) =>
      && "entries" in instructions[k].fields
      && instructions[k].fields["entries"].Array?
      && var items := instructions[k].fields["entries"].elems;
      && |items| >= 2
      && page.entries == items[..|items| - 2]
      && ParseTweetCursor(items[|items| - 2]) == Ok(page.cursorTop)
      && ParseTweetCursor(items[|items| - 1]) == Ok(page.cursorBottom)
  }

  /** The lines after the loop accept the state an add-entries instruction leaves only when it held two cursors after the entries. */
  lemma FinishAfterItems(items: seq<Value>, page: Page)
    requires Finish(AfterAddEntries(items)) == Ok(page)
    ensures |items| >= 2
    ensures page.entries == items[..|items| - 2]
    ensures ParseTweetCursor(items[|items| - 2]) == Ok(page.cursorTop)
    ensures ParseTweetCursor(items[|items| - 1]) == Ok(page.cursorBottom)
  {
    var cursors := LastTwo(items);
    assert |items| >= 2;
    assert cursors[0] == items[|items| - 2] && cursors[1] == items[|items| - 1];
    assert DropLastTwo(items) == items[..|items| - 2];
  }

  /** Two decodable cursor entries after the page's entries give exactly that page. */
  lemma FinishOfItems(items: seq<Value>, page: Page)
    requires |items| >= 2 && page.entries == items[..|items| - 2]
    requires ParseTweetCursor(items[|items| - 2]) == Ok(page.cursorTop)
    requires ParseTweetCursor(items[|items| - 1]) == Ok(page.cursorBottom)
    ensures Finish(AfterAddEntries(items)) == Ok(page)
  {
    assert LastTwo(items)[0] == items[|items| - 2] && LastTwo(items)[1] == items[|items| - 1];
    assert DropLastTwo(items) == items[..|items| - 2];
  }

  /** Entries given as a string never yield a page: its one-character strings are no cursor entries. */
  lemma FinishRejectsChars(str: string)
    ensures Finish(AfterAddEntries(Chars(str))).Err?
  {
    var items := Chars(str);
    if |items| >= 2 {
      assert LastTwo(items)[0] == String([str[|str| - 2]]);
    }
  }

  /** The lines after the loop accept the state left by sliceable entries `raw` only when `raw` is a list. */
  lemma FinishNeedsList(raw: Value, page: Page)
    requires AsSequence(raw).Ok? && Finish(AfterAddEntries(AsSequence(raw).value)) == Ok(page)
    ensures raw.Array?
  {
  }

  /** A page made from the state one add-entries instruction leaves is the page that instruction determines. */
  lemma PageOfAddEntries(instruction: Value, page: Page)
    requires IsAddEntries(instruction) && Step(Unscanned, instruction).Ok?
    requires Finish(Step(Unscanned, instruction).value) == Ok(page)
    ensures "entries" in instruction.fields && instruction.fields["entries"].Array?
    ensures var items := instruction.fields["entries"].elems;
      && |items| >= 2
      && page.entries == items[..|items| - 2]
      && ParseTweetCursor(items[|items| - 2]) == Ok(page.cursorTop)
      && ParseTweetCursor(items[|items| - 1]) == Ok(page.cursorBottom)
  {
    var raw := instruction.fields["entries"];
    FinishNeedsList(raw, page);
    FinishAfterItems(raw.elems, page);
  }

  /** A successful decode found the instructions, got through the loop, and passed the lines after it. */
  lemma DecodeTweetsParts(data: Value)
    requires DecodeTweets(data).Ok?
    ensures TimelineInstructions(data).Ok?
    ensures ScanInstructions(Unscanned, TimelineInstructions(data).value).Ok?
    ensures Finish(ScanInstructions(Unscanned, TimelineInstructions(data).value).value) == DecodeTweets(data)
  {
  }

  /** A page made from the state the loop ends in is the page of the last add-entries instruction. */
  lemma ScanPage(instructions: seq<Value>, page: Page)
    requires ScanInstructions(Unscanned, instructions).Ok?
    requires Finish(ScanInstructions(Unscanned, instructions).value) == Ok(page)
    ensures PageOfLastAddEntries(instructions, page)
  {
    ScanEndsAtLastAddEntries(Unscanned, instructions);
    var k := LastWhere(instructions, IsAddEntries).value;
    PageOfAddEntries(instructions[k], page);
  }

  /** Every page `_parse_tweets` returns is the one its last add-entries instruction determines. */
  lemma DecodeTweetsSound(data: Value, page: Page)
    requires DecodeTweets(data) == Ok(page)
    ensures TimelineInstructions(data).Ok?
    ensures PageOfLastAddEntries(TimelineInstructions(data).value, page)
  {
    DecodeTweetsParts(data);
    ScanPage(TimelineInstructions(data).value, page);
  }

  /** On well-formed instructions the page the last add-entries instruction determines is what `_parse_tweets` returns. */
  lemma DecodeTweetsComplete(data: Value, page: Page)
    requires TimelineInstructions(data).Ok?
    requires forall i | 0 <= i < |TimelineInstructions(data).value| :: WellFormed(TimelineInstructions(data).value[i])
    requires PageOfLastAddEntries(TimelineInstructions(data).value, page)
    ensures DecodeTweets(data) == Ok(page)
  {
    var instructions := TimelineInstructions(data).value;
    ScanEndsAtLastAddEntries(Unscanned, instructions);
    var k := LastWhere(instructions, IsAddEntries).value;
    var items := instructions[k].fields["entries"].elems;
    assert ScanInstructions(Unscanned, instructions) == Ok(AfterAddEntries(items));
    FinishOfItems(items, page);
  }

  /** `_parse_tweets` fails when no instruction adds entries, or when the last one has fewer than two entries. */
  lemma DecodeTweetsFails(data: Value)
    requires TimelineInstructions(data).Ok?
    requires var instructions := TimelineInstructions(data).value;
      match LastWhere(instructions, IsAddEntries)
      case None => true
      case Some(k) =>
        "entries" in instructions[k].fields && instructions[k].fields["entries"].Array? &&
        |instructions[k].fields["entries"].elems| < 2
    ensures DecodeTweets(data).Err?
  {
    if DecodeTweets(data).Ok? {
      DecodeTweetsSound(data, DecodeTweets(data).value);
    }
  }
}
