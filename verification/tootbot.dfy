/** One cycle of the bot in tootbot.py: reading boolean settings, filtering
    the subreddit feed by the post policy, building the tweet caption, and
    `make_post`, which picks the first post the dedup store has not seen,
    resolves its media, tweets it or skips it, and records the outcome. */
module Tootbot {
  import opened Results
  import opened Text
  import PurePath
  import Media

  // ---------------------------------------------------------------------
  // strtobool

  const TrueWords: seq<string> := ["y", "yes", "t", "true", "on", "1"]
  const FalseWords: seq<string> := ["n", "no", "f", "false", "off", "0"]

  /** `s.lower() == word` for a lower-case `word`. */
  predicate EqualsIgnoringCase(s: string, word: string)
  {
    |s| == |word| && forall i :: 0 <= i < |s| ==> LowerChar(s[i]) == word[i]
  }

  /** `strtobool`: one of the true words or one of the false words, compared
      after lower-casing; anything else raises ValueError. */
  function StrToBool(val: string): (r: Result<bool>)
    ensures r == Ok(true) <==> exists w :: w in TrueWords && EqualsIgnoringCase(val, w)
    ensures r == Ok(false) <==> exists w :: w in FalseWords && EqualsIgnoringCase(val, w)
    ensures r.Err? ==> r.error == InvalidBoolean(Lower(val))
  {
    var v := Lower(val);
    assert forall w :: EqualsIgnoringCase(val, w) <==> v == w;
    if v in TrueWords then Ok(true)
    else if v in FalseWords then Ok(false)
    else Err(InvalidBoolean(v))
  }

  /** No text reads both as true and as false. */
  lemma StrToBoolDisjoint(val: string)
    ensures !((exists w :: w in TrueWords && EqualsIgnoringCase(val, w))
              && (exists w :: w in FalseWords && EqualsIgnoringCase(val, w)))
  {
    var r := StrToBool(val);
  }

  // ---------------------------------------------------------------------
  // get_reddit_posts

  /** The fields of a Reddit submission the bot reads. */
  datatype Submission = Submission(
    id: string,
    title: string,
    shortlink: string,
    url: string,
    over18: bool,
    isSelf: bool,
    spoiler: bool,
    stickied: bool)

  /** The settings the cycle reads, as the raw strings of the settings file. */
  datatype Settings = Settings(
    nsfwPostsAllowed: string,
    selfPostsAllowed: string,
    spoilersAllowed: string,
    hashtags: string,
    mediaPostsOnly: string,
    media: Media.MediaSettings)

  /** A flagged submission whose kind the settings do not allow. The setting
      is only parsed when the flag is set, so a malformed setting only raises
      for flagged submissions. */
  function Excluded(flag: bool, setting: string): (r: Result<bool>)
    ensures !flag ==> r == Ok(false)
    ensures flag ==> r == (match StrToBool(setting) case Ok(b) => Ok(!b) case Err(e) => Err(e))
  {
    if !flag then Ok(false)
    else
      var allowed :- StrToBool(setting);
      Ok(!allowed)
  }

  /** The flag is unset, or the setting reads as true. */
  predicate Allows(flag: bool, setting: string)
  {
    !flag || StrToBool(setting) == Ok(true)
  }

  /** The policy of `get_reddit_posts` for one submission: skipped when it is
      NSFW, a self post or a spoiler and that kind is disabled, or when it is
      stickied; the checks run in that order. */
  function Keep(s: Submission, cfg: Settings): (r: Result<bool>)
    ensures r == Ok(true) <==>
      && Allows(s.over18, cfg.nsfwPostsAllowed)
      && Allows(s.isSelf, cfg.selfPostsAllowed)
      && Allows(s.spoiler, cfg.spoilersAllowed)
      && !s.stickied
    ensures r.Err? <==>
      || (s.over18 && StrToBool(cfg.nsfwPostsAllowed).Err?)
      || (Allows(s.over18, cfg.nsfwPostsAllowed) && s.isSelf && StrToBool(cfg.selfPostsAllowed).Err?)
      || (Allows(s.over18, cfg.nsfwPostsAllowed) && Allows(s.isSelf, cfg.selfPostsAllowed)
          && s.spoiler && StrToBool(cfg.spoilersAllowed).Err?)
    ensures !s.over18 && !s.isSelf && !s.spoiler ==> r == Ok(!s.stickied)
  {
    var nsfw :- Excluded(s.over18, cfg.nsfwPostsAllowed);
    if nsfw then Ok(false)
    else
      var selfPost :- Excluded(s.isSelf, cfg.selfPostsAllowed);
      if selfPost then Ok(false)
      else
        var spoiler :- Excluded(s.spoiler, cfg.spoilersAllowed);
        if spoiler then Ok(false)
        else Ok(!s.stickied)
  }

  /** The keys of a dictionary kept as its list of entries, in insertion order. */
  function Ids(d: seq<Submission>): (r: seq<string>)
    ensures |r| == |d| && forall k :: 0 <= k < |d| ==> r[k] == d[k].id
  {
    seq(|d|, k requires 0 <= k < |d| => d[k].id)
  }

  /** No two entries share an id, as in a Python dict. */
  predicate UniqueIds(d: seq<Submission>)
  {
    forall i, j :: 0 <= i < j < |d| ==> d[i].id != d[j].id
  }

  /** The position of the entry with this id, or `|d|` when there is none. */
  function IndexOfId(d: seq<Submission>, id: string): (r: nat)
    ensures r <= |d|
    ensures r < |d| ==> d[r].id == id
    ensures forall k :: 0 <= k < r ==> d[k].id != id
  {
    if |d| == 0 then 0
    else if d[0].id == id then 0
    else 1 + IndexOfId(d[1..], id)
  }

  /** `post_dict[s.id] = s`: an existing key keeps its place and gets the new
      value; a new key goes at the end. */
  function Put(d: seq<Submission>, s: Submission): (r: seq<Submission>)
    requires UniqueIds(d)
    ensures UniqueIds(r)
    ensures s.id in Ids(d) ==> Ids(r) == Ids(d)
    ensures s.id !in Ids(d) ==> r == d + [s]
    ensures s in r
    ensures forall x :: x in r ==> x == s || x in d
  {
    var i := IndexOfId(d, s.id);
    if i == |d| then
      assert s.id !in Ids(d);
      d + [s]
    else
      var r := d[i := s];
      assert Ids(r) == Ids(d);
      assert s.id in Ids(d);
      assert r[i] == s;
      r
  }

  /** `get_reddit_posts`: the allowed submissions of the feed, keyed by id in
      feed order. The first setting that does not parse raises. */
  function FilterPosts(feed: seq<Submission>, cfg: Settings): (r: Result<seq<Submission>>)
    ensures r.Ok? ==> UniqueIds(r.value)
    ensures r.Ok? ==> forall x :: x in r.value ==> x in feed && Keep(x, cfg) == Ok(true)
    decreases |feed|
  {
    if |feed| == 0 then Ok([])
    else
      var prefix := feed[..|feed| - 1];
      var last := feed[|feed| - 1];
      var d :- FilterPosts(prefix, cfg);
      var keep :- Keep(last, cfg);
      if keep then Ok(Put(d, last)) else Ok(d)
  }

  /** The submissions of the feed the policy keeps, in feed order: the
      reference the dictionary-building loop is compared with. */
  function Kept(feed: seq<Submission>, cfg: Settings): seq<Submission>
  {
    if |feed| == 0 then []
    else (if Keep(feed[0], cfg) == Ok(true) then [feed[0]] else []) + Kept(feed[1..], cfg)
  }

  lemma {:induction false} KeptSnoc(feed: seq<Submission>, x: Submission, cfg: Settings)
    ensures Kept(feed + [x], cfg) == Kept(feed, cfg) + (if Keep(x, cfg) == Ok(true) then [x] else [])
  {
    if |feed| > 0 {
      assert (feed + [x])[1..] == feed[1..] + [x];
      KeptSnoc(feed[1..], x, cfg);
    } else {
      assert [x][1..] == [];
    }
  }

  /** With distinct ids, the last submission of the feed is not yet a key of
      the dictionary built from the ones before it. */
  lemma LastIdIsNew(feed: seq<Submission>, cfg: Settings)
    requires UniqueIds(feed) && |feed| > 0
    requires FilterPosts(feed[..|feed| - 1], cfg).Ok?
    ensures feed[|feed| - 1].id !in Ids(FilterPosts(feed[..|feed| - 1], cfg).value)
  {
    var prefix := feed[..|feed| - 1];
    var d := FilterPosts(prefix, cfg).value;
    forall k | 0 <= k < |d|
      ensures d[k].id != feed[|feed| - 1].id
    {
      assert d[k] in prefix;
      var j :| 0 <= j < |prefix| && prefix[j] == d[k];
      assert feed[j] == d[k];
    }
  }

  /** With distinct ids in the feed, `get_reddit_posts` keeps exactly the
      allowed submissions, in feed order. */
  lemma {:induction false} FilterPostsIsKept(feed: seq<Submission>, cfg: Settings)
    requires UniqueIds(feed)
    requires FilterPosts(feed, cfg).Ok?
    ensures FilterPosts(feed, cfg).value == Kept(feed, cfg)
    decreases |feed|
  {
    if |feed| > 0 {
      var prefix := feed[..|feed| - 1];
      var last := feed[|feed| - 1];
      assert feed == prefix + [last];
      FilterPostsIsKept(prefix, cfg);
      KeptSnoc(prefix, last, cfg);
      LastIdIsNew(feed, cfg);
    }
  }

  /** `get_reddit_posts` raises exactly when the policy raises on some
      submission, and then with the error of the first such submission. */
  lemma {:induction false} FilterPostsRaises(feed: seq<Submission>, cfg: Settings)
    ensures FilterPosts(feed, cfg).Err? <==> exists i :: 0 <= i < |feed| && Keep(feed[i], cfg).Err?
    ensures FilterPosts(feed, cfg).Err? ==>
      exists i :: 0 <= i < |feed| && Keep(feed[i], cfg).Err?
        && FilterPosts(feed, cfg).error == Keep(feed[i], cfg).error
        && forall j :: 0 <= j < i ==> Keep(feed[j], cfg).Ok?
    decreases |feed|
  {
    if |feed| > 0 {
      var prefix := feed[..|feed| - 1];
      FilterPostsRaises(prefix, cfg);
      assert forall i :: 0 <= i < |prefix| ==> prefix[i] == feed[i];
    }
  }

  // ---------------------------------------------------------------------
  // get_twitter_caption

  /** Each comma-separated piece of the hashtags setting, stripped, behind a '#'. */
  function Tags(pieces: seq<string>): (r: seq<string>)
    ensures |r| == |pieces|
    ensures forall k :: 0 <= k < |r| ==> r[k] == "#" + Strip(pieces[k])
  {
    if |pieces| == 0 then [] else ["#" + Strip(pieces[0])] + Tags(pieces[1..])
  }

  /** The hashtag string of the caption: the tags joined by single spaces. An
      empty setting still yields the lone tag "#". */
  function HashtagString(setting: string): (r: string)
    ensures |r| >= 1 && r[0] == '#'
    ensures ',' !in r
  {
    var tags := Tags(Split(setting, ','));
    TagsJoin(tags);
    Join(tags, " ")
  }

  lemma {:induction false} TagsJoin(tags: seq<string>)
    requires |tags| >= 1
    requires forall k :: 0 <= k < |tags| ==> |tags[k]| >= 1 && tags[k][0] == '#'
    requires forall k :: 0 <= k < |tags| ==> ',' !in tags[k]
    ensures var r := Join(tags, " "); |r| >= 1 && r[0] == '#' && ',' !in r
  {
    if |tags| > 1 {
      TagsJoin(tags[1..]);
    }
  }

  /** An empty setting still gives the lone tag "#". */
  lemma EmptyHashtags()
    ensures HashtagString("") == "#"
  {
    assert Split("", ',') == [""];
    assert Strip("") == "";
  }

  /** A setting without a comma gives one tag. */
  lemma HashtagStringSingle(t: string)
    requires ',' !in t
    ensures HashtagString(t) == "#" + Strip(t)
  {
    assert Find(t, ',') == |t|;
  }

  /** Each comma of the setting adds a space and the next tag. */
  lemma HashtagStringCons(a: string, rest: string)
    requires ',' !in a
    ensures HashtagString(a + "," + rest) == "#" + Strip(a) + " " + HashtagString(rest)
  {
    var s := a + "," + rest;
    FindAfterPiece(a, ',', rest);
    assert s[..|a|] == a;
    assert s[|a| + 1..] == rest;
    assert Split(s, ',') == [a] + Split(rest, ',');
    var tail := Tags(Split(rest, ','));
    assert Tags(Split(s, ',')) == ["#" + Strip(a)] + tail;
  }

  /** The caption ends with a space, the hashtags, a space and the link. */
  function CaptionTail(p: Submission, hashtags: string): string
  {
    " " + HashtagString(hashtags) + " " + p.shortlink
  }

  /** `twitter_max_title_length` as written: the room left by the link, the
      hashtags and one space. */
  function TitleBudget(p: Submission, hashtags: string): int
  {
    280 - |p.shortlink| - |HashtagString(hashtags)| - 1
  }

  /** `get_twitter_caption` as written. A title shorter than the budget is
      kept whole; a longer one is cut to three less than the budget and
      marked "...". The budget counts one of the two spaces around the
      hashtags, so whenever the title is cut to a non-negative length the
      caption is 281 characters long, one over the limit. */
  function Caption(p: Submission, hashtags: string): (r: string)
    ensures var tail := CaptionTail(p, hashtags);
      |r| >= |tail| && r[|r| - |tail|..] == tail
    ensures |p.title| < TitleBudget(p, hashtags) ==>
      r == p.title + CaptionTail(p, hashtags) && |r| <= 280
    ensures |p.title| >= TitleBudget(p, hashtags) ==>
      var head := r[..|r| - |CaptionTail(p, hashtags)|];
      && |head| >= 3 && head[|head| - 3..] == "..."
      && head[..|head| - 3] == PrefixSlice(p.title, TitleBudget(p, hashtags) - 3)
    ensures |p.title| >= TitleBudget(p, hashtags) >= 3 ==> |r| == 281
  {
    var m := TitleBudget(p, hashtags);
    var tail := CaptionTail(p, hashtags);
    if |p.title| < m then p.title + tail
    else
      var cut := PrefixSlice(p.title, m - 3);
      var head := cut + "...";
      assert (head + tail)[..|head|] == head;
      assert (head + tail)[|head|..] == tail;
      assert head[..|head| - 3] == cut;
      head + tail
  }

  /** The budget the caption evidently intends: both spaces around the
      hashtags are counted. */
  function TitleBudgetWithinLimit(p: Submission, hashtags: string): int
  {
    280 - |p.shortlink| - |HashtagString(hashtags)| - 2
  }

  /** The caption with the corrected budget. Whenever the link and the
      hashtags leave room for the "..." marker the caption fits the
      280-character limit; the caption starts with the title or with a
      prefix of it, and ends with the hashtags and the link. */
  function CaptionWithinLimit(p: Submission, hashtags: string): (r: string)
    ensures var tail := CaptionTail(p, hashtags);
      |r| >= |tail| && r[|r| - |tail|..] == tail
    ensures |p.title| < TitleBudgetWithinLimit(p, hashtags) ==> r == p.title + CaptionTail(p, hashtags)
    ensures |p.title| >= TitleBudgetWithinLimit(p, hashtags) ==>
      var head := r[..|r| - |CaptionTail(p, hashtags)|];
      && |head| >= 3 && head[|head| - 3..] == "..."
      && |head| - 3 <= |p.title| && head[..|head| - 3] == p.title[..|head| - 3]
      && (TitleBudgetWithinLimit(p, hashtags) >= 3 ==> |head| == TitleBudgetWithinLimit(p, hashtags))
    ensures TitleBudgetWithinLimit(p, hashtags) >= 3 ==> |r| <= 280
  {
    var m := TitleBudgetWithinLimit(p, hashtags);
    var tail := CaptionTail(p, hashtags);
    if |p.title| < m then p.title + tail
    else
      var cut := PrefixSlice(p.title, m - 3);
      var head := cut + "...";
      assert (head + tail)[..|head|] == head;
      assert (head + tail)[|head|..] == tail;
      assert head[..|head| - 3] == cut;
      head + tail
  }

  /** The first title that the as-written caption pushes over the limit: a
      title one character longer than the budget, with an empty hashtags
      setting and a 20-character link. */
  lemma CaptionOverflowWitness()
    ensures var p := Submission("abc", Repeat('x', 258), Repeat('l', 20), "", false, false, false, false);
      && |Caption(p, "")| == 281
      && |CaptionWithinLimit(p, "")| == 280
  {
    var p := Submission("abc", Repeat('x', 258), Repeat('l', 20), "", false, false, false, false);
    assert HashtagString("") == "#" by { HashtagStringSingle(""); }
  }

  function Repeat(c: char, n: nat): (r: string)
    ensures |r| == n
  {
    if n == 0 then "" else [c] + Repeat(c, n - 1)
  }

  // ---------------------------------------------------------------------
  // duplicate_check and log_post

  /** The dedup store: post ids and "<id>:timestamp" keys to strings. */
  type Store = map<string, string>

  /** `r.get(key)`: the stored string, or None when the key is absent. */
  function Get(store: Store, key: string): (r: Option<string>)
    ensures r.Some? <==> key in store
    ensures r.Some? ==> r.value == store[key]
  {
    if key in store then Some(store[key]) else None
  }

  /** Python truthiness of an optional string: None and "" are false. */
  predicate Truthy(v: Option<string>)
  {
    v.Some? && v.value != ""
  }

  /** `duplicate_check`: `bool(r.get(id))`, so a missing key and an empty
      value both read as "not posted yet", and any other stored value as
      "posted". */
  function Seen(store: Store, id: string): (r: bool)
    ensures r <==> id in store && store[id] != ""
    ensures id !in store ==> !r
  {
    Truthy(Get(store, id))
  }

  function TimestampKey(id: string): string
  {
    id + ":timestamp"
  }

  /** `log_post`: records the outcome under the id and the time under the
      timestamp key; every other key is left as it was. */
  function LogPost(store: Store, id: string, outcome: string, now: string): (r: Store)
    ensures r.Keys == store.Keys + {id, TimestampKey(id)}
    ensures r[id] == outcome && r[TimestampKey(id)] == now
    ensures forall k :: k in store && k != id && k != TimestampKey(id) ==> r[k] == store[k]
  {
    assert |TimestampKey(id)| == |id| + 10;
    store[id := outcome][TimestampKey(id) := now]
  }

  /** Logging a post twice keeps only the second outcome and time. */
  lemma LogPostLastWins(store: Store, id: string, a: string, b: string, t1: string, t2: string)
    ensures LogPost(LogPost(store, id, a, t1), id, b, t2) == LogPost(store, id, b, t2)
  {
    var l := LogPost(LogPost(store, id, a, t1), id, b, t2);
    var r := LogPost(store, id, b, t2);
    assert l.Keys == r.Keys;
    assert forall k :: k in l ==> l[k] == r[k];
  }

  /** A non-empty outcome marks the post as seen, and nothing seen before
      becomes unseen as long as the time is non-empty. */
  lemma LogPostMarksSeen(store: Store, id: string, outcome: string, now: string)
    requires outcome != "" && now != ""
    ensures Seen(LogPost(store, id, outcome, now), id)
    ensures forall x :: Seen(store, x) ==> Seen(LogPost(store, id, outcome, now), x)
  {
  }

  // ---------------------------------------------------------------------
  // make_post

  /** The position of the first entry the store has not seen. */
  function FirstUnseen(posts: seq<Submission>, store: Store): (r: Option<nat>)
    ensures r.None? <==> forall k :: 0 <= k < |posts| ==> Seen(store, posts[k].id)
    ensures r.Some? ==> r.value < |posts| && !Seen(store, posts[r.value].id)
    ensures r.Some? ==> forall k :: 0 <= k < r.value ==> Seen(store, posts[k].id)
  {
    if |posts| == 0 then None
    else if !Seen(store, posts[0].id) then Some(0)
    else
      match FirstUnseen(posts[1..], store)
      case None => None
      case Some(i) => Some(i + 1)
  }

  /** The post `make_post` goes on with: the first unseen one, unless its id
      is the empty string, which `if not post` reads as "no new posts". */
  function Selected(posts: seq<Submission>, store: Store): (r: Option<Submission>)
    ensures r.Some? ==> r.value in posts && !Seen(store, r.value.id) && r.value.id != ""
    ensures r.Some? ==>
      exists i :: 0 <= i < |posts| && posts[i] == r.value && (forall k :: 0 <= k < i ==> Seen(store, posts[k].id))
    ensures r.None? ==> FirstUnseen(posts, store).None? || posts[FirstUnseen(posts, store).value].id == ""
  {
    match FirstUnseen(posts, store)
    case None => None
    case Some(i) => if posts[i].id == "" then None else assert posts[i] in posts; Some(posts[i])
  }

  /** What `post_tweet` hands to Twitter. */
  datatype Tweet = Tweet(caption: string, media: Option<PurePath.Path>)

  /** How posting ended: the new tweet's id, or the class and message of the
      exception the attempt raised. */
  datatype PostResult = Posted(tweetId: string) | PostRaised(exceptionClass: string, message: string)

  const SkippedOutcome := "Twitter: Skipped because non-media posts are disabled or the media file was not found"

  /** What `make_post` records after an attempt to post. */
  function PostOutcome(p: PostResult): (r: string)
    ensures p.Posted? ==> "https://twitter.com/i/web/status/" <= r && p.tweetId <= r[33..]
    ensures p.PostRaised? ==> "Error while posting tweet: " <= r
    ensures r != ""
  {
    match p
    case Posted(id) => "https://twitter.com/i/web/status/" + id + "/"
    case PostRaised(cls, msg) => "Error while posting tweet: <class '" + cls + "'>: " + msg
  }

  /** The store after one call of `make_post`, and the tweet it tried to post. */
  datatype Cycle = Cycle(store: Store, attempt: Option<Tweet>)

  /** `make_post` with `get_media` given the settings it needs. `resolve`
      stands for `get_media` and `publish` for `post_tweet`; `now` is the
      time stamp `log_post` writes. The media lookup and the
      `media_posts_only` setting are evaluated before anything is written, so
      when either raises the store is untouched. */
  function MakePost(posts: seq<Submission>, store: Store, cfg: Settings,
                    resolve: string -> Result<Option<PurePath.Path>>,
                    publish: Tweet -> PostResult, now: string): (r: Result<Cycle>)
    ensures Selected(posts, store).None? ==> r == Ok(Cycle(store, None))
    ensures r.Err? ==> Selected(posts, store).Some?
    ensures r.Err? ==> var url := Selected(posts, store).value.url;
      resolve(url).Err? || StrToBool(cfg.mediaPostsOnly).Err?
    ensures Selected(posts, store).Some? ==> var url := Selected(posts, store).value.url;
      (r.Err? <==> resolve(url).Err? || StrToBool(cfg.mediaPostsOnly).Err?)
    ensures Selected(posts, store).Some? && r.Ok? ==>
      var id := Selected(posts, store).value.id;
      && r.value.store.Keys == store.Keys + {id, TimestampKey(id)}
      && r.value.store[TimestampKey(id)] == now
      && r.value.store[id] != ""
      && forall k :: k in store && k != id && k != TimestampKey(id) ==> r.value.store[k] == store[k]
    ensures Selected(posts, store).Some? && r.Ok? ==>
      var post := Selected(posts, store).value;
      (r.value.attempt.None? <==> StrToBool(cfg.mediaPostsOnly) == Ok(true) && resolve(post.url) == Ok(None))
    ensures Selected(posts, store).Some? && r.Ok? && r.value.attempt.None? ==>
      r.value.store[Selected(posts, store).value.id] == SkippedOutcome
    ensures Selected(posts, store).Some? && r.Ok? && r.value.attempt.Some? ==>
      var post := Selected(posts, store).value;
      && resolve(post.url).Ok?
      && r.value.attempt.value == Tweet(CaptionWithinLimit(post, cfg.hashtags), resolve(post.url).value)
      && r.value.store[post.id] == PostOutcome(publish(r.value.attempt.value))
  {
    match Selected(posts, store)
    case None => Ok(Cycle(store, None))
    case Some(post) =>
      var media :- resolve(post.url);
      var mediaOnly :- StrToBool(cfg.mediaPostsOnly);
      var mediaAllowedAndAvailable := mediaOnly && media.Some?;
      var nonMediaAllowed := !mediaOnly;
      if !mediaAllowedAndAvailable && !nonMediaAllowed then
        Ok(Cycle(LogPost(store, post.id, SkippedOutcome, now), None))
      else
        var tweet := Tweet(CaptionWithinLimit(post, cfg.hashtags), media);
        Ok(Cycle(LogPost(store, post.id, PostOutcome(publish(tweet)), now), Some(tweet)))
  }

  /** `make_post` as written calls `get_media` with the URL alone while it
      takes the settings as well, so every call that gets past the "no new
      posts" check raises TypeError before anything is recorded. */
  function MakePostAsWritten(posts: seq<Submission>, store: Store): (r: Result<Cycle>)
    ensures Selected(posts, store).Some? <==> r == Err(WrongArity)
    ensures r.Ok? ==> r.value == Cycle(store, None)
  {
    match Selected(posts, store)
    case None => Ok(Cycle(store, None))
    case Some(_) => Err(WrongArity)
  }

  /** As written, a new post is never recorded, so the bot selects it again
      on every cycle; with the settings passed, the same post is recorded
      and no longer selected. */
  lemma MakePostAsWrittenStalls(cfg: Settings, publish: Tweet -> PostResult)
    requires StrToBool(cfg.mediaPostsOnly) == Ok(false)
    ensures var posts := [Submission("abc", "title", "link", "url", false, false, false, false)];
      var store: Store := map[];
      && MakePostAsWritten(posts, store) == Err(WrongArity)
      && MakePost(posts, store, cfg, _ => Ok(None), publish, "t").Ok?
      && Seen(MakePost(posts, store, cfg, _ => Ok(None), publish, "t").value.store, "abc")
  {
    var posts := [Submission("abc", "title", "link", "url", false, false, false, false)];
    var store: Store := map[];
    assert FirstUnseen(posts, store) == Some(0);
  }

  /** How many posts the store has not seen. */
  function UnseenCount(posts: seq<Submission>, store: Store): nat
  {
    if |posts| == 0 then 0
    else (if Seen(store, posts[0].id) then 0 else 1) + UnseenCount(posts[1..], store)
  }

  /** Growing the set of seen ids never raises the count of unseen posts, and
      lowers it when a post becomes seen. */
  lemma {:induction false} UnseenCountShrinks(posts: seq<Submission>, s1: Store, s2: Store, x: Submission)
    requires forall id :: Seen(s1, id) ==> Seen(s2, id)
    ensures UnseenCount(posts, s2) <= UnseenCount(posts, s1)
    ensures x in posts && !Seen(s1, x.id) && Seen(s2, x.id) ==> UnseenCount(posts, s2) < UnseenCount(posts, s1)
  {
    if |posts| > 0 {
      UnseenCountShrinks(posts[1..], s1, s2, x);
    }
  }

  /** A cycle that records its post never selects that post again, and the
      number of posts still to go goes down. */
  lemma MakePostProgress(posts: seq<Submission>, store: Store, cfg: Settings,
                         resolve: string -> Result<Option<PurePath.Path>>,
                         publish: Tweet -> PostResult, now: string)
    requires now != ""
    requires Selected(posts, store).Some?
    requires MakePost(posts, store, cfg, resolve, publish, now).Ok?
    ensures var after := MakePost(posts, store, cfg, resolve, publish, now).value.store;
      && Seen(after, Selected(posts, store).value.id)
      && (Selected(posts, after).Some? ==> Selected(posts, after).value.id != Selected(posts, store).value.id)
      && UnseenCount(posts, after) < UnseenCount(posts, store)
  {
    var post := Selected(posts, store).value;
    var after := MakePost(posts, store, cfg, resolve, publish, now).value.store;
    assert forall x :: Seen(store, x) ==> Seen(after, x);
    UnseenCountShrinks(posts, store, after, post);
  }

  // ---------------------------------------------------------------------
  // One cycle of the main loop

  /** One iteration of `main`: build the post dictionary from the feed, then
      `make_post` on it, with `get_media` reading the media settings. */
  function RunCycle(feed: seq<Submission>, store: Store, cfg: Settings, web: Media.Web,
                    publish: Tweet -> PostResult, now: string): (r: Result<Cycle>)
    ensures r.Ok? && r.value.attempt.Some? ==>
      exists s :: s in feed && Keep(s, cfg) == Ok(true) && !Seen(store, s.id)
        && r.value.attempt.value.caption == CaptionWithinLimit(s, cfg.hashtags)
    ensures r.Ok? && r.value.store != store ==>
      exists s :: s in feed && Keep(s, cfg) == Ok(true) && !s.stickied && !Seen(store, s.id)
  {
    var posts :- FilterPosts(feed, cfg);
    MakePost(posts, store, cfg, url => Media.GetMedia(web, cfg.media, url), publish, now)
  }

  /** A feed holding only a self post, with self posts disabled, leaves the
      store as it was and tweets nothing. The NSFW check runs first, so an
      NSFW self post whose `nsfw_posts_allowed` setting is malformed raises
      instead; any readable setting excludes the post either way. */
  lemma SelfPostOnlyFeedIsQuiet(s: Submission, store: Store, cfg: Settings, web: Media.Web,
                                publish: Tweet -> PostResult, now: string)
    requires s.isSelf && (!s.over18 || StrToBool(cfg.nsfwPostsAllowed).Ok?)
    requires StrToBool(cfg.selfPostsAllowed) == Ok(false)
    ensures RunCycle([s], store, cfg, web, publish, now) == Ok(Cycle(store, None))
  {
    assert [s][..0] == [];
    assert Keep(s, cfg) == Ok(false);
    assert FilterPosts([s], cfg) == Ok([]);
    assert Selected([], store) == None;
  }

  /** A selected post whose link is generic and not an image makes
      `get_media` raise, and the error escapes before anything is recorded. */
  lemma NonImageLinkRaises(posts: seq<Submission>, store: Store, cfg: Settings, web: Media.Web,
                           publish: Tweet -> PostResult, now: string)
    requires Selected(posts, store).Some?
    requires var url := Selected(posts, store).value.url;
      && Media.Classify(url) == Media.Generic
      && web.contentType(url).Some? && web.contentType(url).value !in Media.ImageFormats
    ensures MakePost(posts, store, cfg, url => Media.GetMedia(web, cfg.media, url), publish, now)
      == Err(NotAnImage(Selected(posts, store).value.url))
  {
  }
}
