# tootbot in Dafny

tootbot reposts the hot posts of a subreddit to Twitter. This project models
the two pieces of it that hold the logic:

- **The media resolver** (`getmedia.py`). `get_media` sorts a link into a
  host family: Reddit, Imgur, Gfycat, Giphy, or a generic link. The host's
  strategy works out which URL to download and where to save it in the media
  folder. It uses `pathlib` rules for the file name, the stem, the suffix, the
  parent, `with_suffix` and the `/` join.
- **The post-selection cycle** (`tootbot.py`). `strtobool` reads the boolean
  settings. `get_reddit_posts` filters the feed with the NSFW, self-post,
  spoiler and stickied rules. `get_twitter_caption` builds the tweet text.
  `make_post` takes one step over the dedup store: it picks the first post
  the store has not seen, resolves its media, applies the media-only policy,
  posts or skips, and records the outcome.

Modules:

- `Results` (results.dfy): `Option`, `Result`, and the exceptions of the code
  as one `Failure` type.
- `Text` (text.dfy): the Python string operations the code uses.
- `PurePath` (purepath.dfy): `PurePosixPath` with Python 3.12 semantics.
- `UrlSplit` (urlsplit.dfy): the path part of `urlsplit`.
- `Media` (media.dfy): getmedia.py.
- `Tootbot` (tootbot.dfy): tootbot.py.

The network is a parameter. `Media.Web` is a record of total functions keyed
by the requested URL:

- the status code;
- the Imgur `data` object;
- the Gfycat `gifUrl`;
- a Giphy oEmbed entry;
- the `content-type` header;
- the MD5 digest of a downloaded body.

A JSON key or header that would raise `KeyError` is `None`. For the cycle,
`get_media` is a parameter `resolve`, and `post_tweet` is a parameter
`publish`. The store is a `map<string, string>`. An exception is an `Err`,
and only an `Ok` result carries a new store. So an exception that escapes
`make_post` leaves the store as it was, as in the program.

## Model

| member | source | states |
|---|---|---|
| Media.ClassifyIsFirstMatch | getmedia.py:139-147 | The dispatch is the ordered table Reddit, Imgur, Gfycat, Giphy, where the first row whose pattern occurs wins. A link reaches the generic branch exactly when none of the five patterns occurs in it. |
| Media.SaveFile | getmedia.py:14-22 | A download succeeds exactly on status 200 with a target other than the media folder, and returns its target path. Any other status fails first, carrying that status. A 200 whose target is the media folder itself fails with `IsADirectoryError`. |
| Media.RedditDownload | getmedia.py:25-37 | ".jpg" is added to both the download URL and the file name exactly when the file name has no suffix; otherwise the URL is unchanged. The file sits directly in the media folder. |
| Media.ImgurFetch | getmedia.py:49-59 | An API answer is used only after a 200 from the endpoint built from the kind and the path stem. |
| Media.EndpointIgnoresExtension | getmedia.py:51-53 | A page link and a direct link whose names differ only by an added extension ask the Imgur and Gfycat APIs about the same object. |
| Media.ImgurImageMedia | getmedia.py:40-46 | An image link is saved in the folder under its own file name. This succeeds exactly on a 200 for a link whose path has a file name. A 200 for a link without a file name fails with `IsADirectoryError`. |
| Media.ImgurImage | getmedia.py:62-66 | Success needs a 200 from the image endpoint and a `link` in its answer, and the result is that link's download. After a 200, a link means exactly that download, and a missing link raises `KeyError`. |
| Media.ImgurAlbum | getmedia.py:69-73 | Success needs a 200 from the album endpoint. After a 200, a non-empty image list means the download of the first image. An empty image list fails, and success names the file after the first image. |
| Media.ImgurGallery | getmedia.py:76-82 | A gallery goes on as an album exactly when `is_album` is true, and as an image otherwise. Success needs a 200 and an `is_album` field. |
| Media.ImgurMedia | getmedia.py:85-94 | An empty client id, then an empty secret, fails before any request. After that, "/a/" means an album even when "/gallery/" also occurs; "/gallery/" means a gallery; anything else is an image. |
| Media.GfycatFilePath | getmedia.py:107 | The path fails only when the joined name is empty, and always has suffix ".gif". A plain name gives folder/stem.gif. |
| Media.GfycatMedia | getmedia.py:97-109 | Success needs a 200 from the API URL of the path stem and a `gifUrl`. The file is saved at the Gfycat path, and the result is the download of the `gifUrl` there. After a 200 with a `gifUrl` and a path, the result is exactly that download. |
| Media.GiphyAsWrittenIgnoresFolder | getmedia.py:121-122 | As written, a link with a host has an absolute parent path, so the join discards the media folder. The file lands at the URL's parent directory plus ".gif", whatever the folder is. |
| Media.GiphyFilePath | getmedia.py:121-122 | The corrected path exists exactly when the GIF's directory has a name. The file is then directly inside the media folder, with suffix ".gif" and that name's stem. |
| Media.GiphySave | getmedia.py:124-129 | The download succeeds exactly on a 200, for a target other than the media folder, with an MD5 other than the placeholder's, and returns its target. |
| Media.GiphyMedia | getmedia.py:112-129 | Success needs a 200 from the oEmbed endpoint. A success never has the placeholder MD5, and a placeholder MD5 always fails. A success is the save of the oEmbed entry at the corrected Giphy path. After a 200 with an entry and a path, the result is exactly that save. |
| Media.GenericMedia | getmedia.py:148-164 | The link goes on exactly when its content type is one of the four image types. A failed download gives no media rather than an error: that is a status other than 200, or a path without a file name, which opens the media folder itself. Any other content type raises. A saved file is folder/name. |
| Media.GetMedia | getmedia.py:132-164 | Each host family gets its own strategy's result, and only a generic link can give "no media". A Gfycat or Giphy success is a ".gif" file. |
| Media.KnownHostIgnoresContentType | getmedia.py:139-151 | For a link of a known host, changing every content-type answer changes nothing: the content type is read only in the generic branch. |
| PurePath.Suffix | getmedia.py:28 | A suffix is empty or a dot followed by at least one character and no other dot, ending the name and shorter than it. It is non-empty exactly when the name has a dot that is neither its first nor its last character and no dot after it. So a dot file and a name ending in "." have no suffix. |
| PurePath.Stem | getmedia.py:51 | The stem followed by the suffix is the name, and a non-empty name has a non-empty stem. |
| PurePath.JoinPath | getmedia.py:122 | An absolute right operand discards the left one. Otherwise the result keeps the left operand's root and appends the right operand's components. |
| PurePath.JoinName | getmedia.py:43-44 | Joining a file name to a directory gives back the directory exactly when the name is empty. |
| PurePath.WithSuffix | getmedia.py:107 | `with_suffix` fails exactly on an invalid suffix or an empty name. Otherwise it keeps the directory, and the new name is the old stem plus the suffix. |
| PurePath.WithGifSuffix | getmedia.py:122 | `with_suffix(".gif")` on a named path gives a path in the same directory with suffix ".gif" and the same stem. |
| UrlSplit.NetlocPathIsRooted | getmedia.py:121 | Behind a host the URL path is empty or starts at the root. |
| Tootbot.StrToBool | tootbot.py:22-34 | Compared without regard to case, the six true words give true and the six false words give false. Any other text raises, with the lower-cased text. |
| Tootbot.StrToBoolDisjoint | tootbot.py:29-32 | No text is both a true word and a false word. |
| Tootbot.Excluded | tootbot.py:42-50 | An unflagged submission is never excluded. A flagged one is excluded exactly when its setting parses false. The setting is parsed only for a flagged submission. |
| Tootbot.Keep | tootbot.py:42-55 | A submission is kept exactly when every set flag is allowed by its setting and it is not stickied. The policy raises exactly when the first setting it has to read does not parse. |
| Tootbot.Put | tootbot.py:55 | Dictionary assignment: an existing id keeps its place and gets the new value, and a new id goes last. Ids stay unique. |
| Tootbot.FilterPosts | tootbot.py:37-56 | The dictionary has unique ids. Every entry is a feed submission the policy keeps, so it is never stickied. |
| Tootbot.FilterPostsIsKept | tootbot.py:41-56 | With distinct ids, the dictionary is exactly the kept submissions in feed order: an order-preserving filter. |
| Tootbot.FilterPostsRaises | tootbot.py:41-50 | Filtering raises exactly when the policy raises on some submission, and then with the first such submission's error. |
| Tootbot.HashtagString | tootbot.py:61-62 | The hashtag string starts with '#' and contains no comma. |
| Tootbot.EmptyHashtags | tootbot.py:61-62 | An empty setting gives the lone tag "#". |
| Tootbot.HashtagStringSingle | tootbot.py:61-62 | A setting without a comma gives '#' and the stripped setting. |
| Tootbot.HashtagStringCons | tootbot.py:61-62 | Each comma adds a space and the next '#'-prefixed stripped piece. |
| Tootbot.Caption | tootbot.py:59-70 | As written, every caption ends with the hashtags and the link unmodified. A title under the budget is kept whole and fits in 280 characters. A cut title keeps its first budget-minus-three characters plus "...". Whenever the budget is at least 3, a cut caption is 281 characters long. |
| Tootbot.CaptionWithinLimit | tootbot.py:59-70 | The corrected caption has the same unmodified tail. A cut title keeps a prefix of itself plus "...". Whenever the link and hashtags leave room for the marker, the caption is at most 280 characters. |
| Tootbot.CaptionOverflowWitness | tootbot.py:64-69 | A 258-character title with a 20-character link and no hashtags gives a 281-character caption as written, and 280 when corrected. |
| Tootbot.Seen | tootbot.py:84-95 | `bool(r.get(id))`: a post is seen exactly when its id is stored with a non-empty value. A missing id is never seen. |
| Tootbot.LogPost | tootbot.py:98-107 | Logging writes the outcome under the id and the time under "id:timestamp", and no other key changes. |
| Tootbot.LogPostLastWins | tootbot.py:106-107 | Logging the same post twice keeps only the second outcome and time. |
| Tootbot.LogPostMarksSeen | tootbot.py:92 | A logged non-empty outcome makes the duplicate check report the post as seen, and nothing seen before becomes unseen. |
| Tootbot.FirstUnseen | tootbot.py:144 | This is the first position whose id is missing from the store or stored with an empty value. It is absent exactly when every id is seen. |
| Tootbot.Selected | tootbot.py:144-147 | The chosen post is the first unseen one in dictionary order and has a non-empty id. |
| Tootbot.PostOutcome | tootbot.py:167-171 | A recorded outcome is never empty. A success is the status URL of the tweet id; a failure is the error text. |
| Tootbot.MakePost | tootbot.py:142-171 | With nothing selected, the store is unchanged and nothing is posted. With a post selected, the cycle raises exactly when the media lookup raises or `media_posts_only` does not parse, and then nothing is written. Otherwise exactly the id and "id:timestamp" keys are written, with a non-empty outcome. The skip happens exactly when `media_posts_only` is true and there is no media, and records the skip message. A post records the outcome of the tweet it made. |
| Tootbot.MakePostAsWritten | tootbot.py:149 | As written, every cycle that selects a post raises TypeError, and no cycle ever changes the store. |
| Tootbot.MakePostAsWrittenStalls | tootbot.py:144-157 | On a one-post feed the as-written cycle raises and records nothing, while the corrected cycle records the post as seen. |
| Tootbot.UnseenCountShrinks | tootbot.py:92 | Marking more ids as seen never raises the number of unseen posts. Marking a new one lowers it. |
| Tootbot.MakePostProgress | tootbot.py:144-171 | A recorded post is seen afterwards and is never selected again, and the number of unseen posts goes down. |
| Tootbot.RunCycle | tootbot.py:187-190 | A cycle that tweets or writes does so for a feed submission the policy keeps, that is not stickied, and that was unseen. |
| Tootbot.SelfPostOnlyFeedIsQuiet | tootbot.py:42-47 | A feed of one self post, with self posts disabled, leaves the store unchanged and tweets nothing. This holds for an NSFW self post too, whenever `nsfw_posts_allowed` parses. |
| Tootbot.NonImageLinkRaises | getmedia.py:163-164 | A selected generic link that is not an image makes the cycle raise `ValueError` before anything is recorded. |

## Left out

- getsettings.py and logger.py are not part of this model. Settings arrive as the raw strings of `Tootbot.Settings` and `Media.MediaSettings`.
- HTTP is the `Media.Web` parameter:
  - a request's answer depends only on its URL;
  - headers, timeouts and connection errors are not modelled;
  - streamed file writes are not modelled;
  - the MD5 is looked up by the GIF URL instead of being computed over the saved bytes.
- `os.makedirs` of the media folder and all `print` and `logging` output are not modelled. They change no result.
- praw, tweepy and Redis are not modelled:
  - the feed is a given sequence, so `post_limit` and `hot()` are not modelled;
  - `post_tweet` is the `publish` parameter, which covers the upload assertion, the file deletion and the three shapes of tweet id;
  - the `sys.exit` on a store failure is not modelled.
- `main`, its sleep between cycles, `setup_connection_reddit` and `quit` are left out. `Tootbot.RunCycle` is one loop iteration.
- Text.Lower: only ASCII letters are lower-cased, unlike Unicode `str.lower()`.
- PurePath.Parse: a path starting with exactly two slashes is read as one root. pathlib keeps "//" as a separate anchor.
- UrlSplit.PathOf does not model the rest of `urlsplit`:
  - stripping of leading and control whitespace;
  - the IPv6 bracket checks;
  - the `ValueError`s `urlsplit` can raise.
- Media.RedditDownload: `suffix.lower()` is not modelled, because only whether the suffix is empty matters and lower-casing does not change that.
- The media folder is the only directory the model knows. A download target that is some other existing directory would also raise `IsADirectoryError`; `Media.SaveFile` does not model that case.
- Media.ImgurAlbum: an album's images are their links. A first image without a `link` key (a `KeyError`) is not modelled.
- Tootbot.FilterPostsIsKept: requires distinct ids in the feed. With repeated ids, `Tootbot.FilterPosts` still promises unique keys, each holding a kept feed submission, but not the exact sequence.
- Tootbot.MakePostProgress: requires a non-empty time stamp, which `isoformat()` always gives.

## Findings

The comment at tootbot.py:63 sets the title budget so that the caption fits
Twitter's 280 characters. The code does not keep that (row 2). In every row the model records the behaviour as
written and then uses the corrected member.

| source | as written | input that shows it | evidently intended | confidence | as-written member | corrected member |
|---|---|---|---|---|---|---|
| tootbot.py:149 | `get_media(post_dict[post].url)` passes one argument to a function that takes `(url, settings)`, so it raises TypeError before anything is logged | a feed with one unseen post, id "abc", and an empty store | call `get_media(url, settings)` and record the post | high (not executed) | Tootbot.MakePostAsWritten | Tootbot.MakePost |
| tootbot.py:64 | the title budget subtracts one space, but the caption has two spaces around the hashtags, so a cut caption is 281 characters | a 258-character title, a 20-character link, an empty hashtags setting | subtract both spaces, so a caption is at most 280 characters | high (not executed) | Tootbot.Caption | Tootbot.CaptionWithinLimit |
| getmedia.py:121-122 | the whole parent of the URL path, which is absolute, is joined to the media folder, so the join drops the folder | `https://media.giphy.com/media/abc/giphy.gif` is saved as `/media/abc.gif` | join only the parent's name, giving `<media_folder>/abc.gif` | high (not executed) | Media.GiphyAsWrittenIgnoresFolder | Media.GiphyFilePath |
