/** The media resolver of getmedia.py: it sorts a link into a host family
    and lets that host's strategy work out which URL to download and where
    to save it.

    Nothing here touches the network. A `Web` value stands for every answer
    the resolver could get: a total function per kind of answer, keyed by the
    requested URL. A JSON lookup or header that would raise KeyError is a
    `None`. */
module Media {
  import opened Results
  import opened PurePath
  import Text
  import UrlSplit

  /** The answers of the HTTP requests the resolver makes. */
  datatype Web = Web(
    /** status code of a GET of the URL */
    status: string -> int,
    /** `json()["data"]` of an Imgur API URL */
    imgur: string -> ImgurData,
    /** `json()["gfyItem"]["gifUrl"]` of a Gfycat API URL */
    gfycatGifUrl: string -> Option<string>,
    /** `json()[key]` of a Giphy oEmbed URL */
    giphyEntry: (string, string) -> Option<string>,
    /** the `content-type` header of a plain GET of the URL */
    contentType: string -> Option<string>,
    /** the MD5 hex digest of the body a download of the URL saved */
    md5Hex: string -> string
  )

  /** The fields of an Imgur API answer the strategies read. */
  datatype ImgurData = ImgurData(
    link: Option<string>,
    images: Option<seq<string>>,
    isAlbum: Option<bool>)

  /** The settings the resolver reads: `media.media_folder` and the two
      `imgur` credentials. */
  datatype MediaSettings = MediaSettings(
    mediaFolder: string,
    imgurClientId: string,
    imgurClientSecret: string)

  /** One call of `save_file`: the URL to fetch and the file to write. */
  datatype Download = Download(url: string, target: Path)

  datatype Host = Reddit | Imgur | Gfycat | Giphy | Generic

  // ---------------------------------------------------------------------------
  // Dispatch

  /** The host family of a link: substring tests, the first one that holds
      wins. */
  function Classify(url: string): Host
  {
    if Text.Contains(url, "redd.it") || Text.Contains(url, "reddituploads.com") then Reddit
    else if Text.Contains(url, "imgur.com") then Imgur
    else if Text.Contains(url, "gfycat.com") then Gfycat
    else if Text.Contains(url, "giphy.com") then Giphy
    else Generic
  }

  /** The same dispatch as an ordered table of (patterns, host) rows. */
  const HostTable: seq<(seq<string>, Host)> := [
    (["redd.it", "reddituploads.com"], Reddit),
    (["imgur.com"], Imgur),
    (["gfycat.com"], Gfycat),
    (["giphy.com"], Giphy)
  ]

  predicate AnyOccurs(patterns: seq<string>, url: string)
  {
    exists k :: 0 <= k < |patterns| && Text.Contains(url, patterns[k])
  }

  /** The host of the first row one of whose patterns occurs in the URL. */
  function FirstMatch(table: seq<(seq<string>, Host)>, url: string): Host
  {
    if |table| == 0 then Generic
    else if AnyOccurs(table[0].0, url) then table[0].1
    else FirstMatch(table[1..], url)
  }

  /** First match wins: the host of row `i` is chosen exactly when row `i`
      matches and no earlier row does. */
  lemma {:induction false} FirstMatchWins(table: seq<(seq<string>, Host)>, url: string, i: int)
    requires 0 <= i < |table|
    requires AnyOccurs(table[i].0, url)
    requires forall j :: 0 <= j < i ==> !AnyOccurs(table[j].0, url)
    ensures FirstMatch(table, url) == table[i].1
  {
    if i > 0 {
      assert !AnyOccurs(table[0].0, url);
      FirstMatchWins(table[1..], url, i - 1);
    }
  }

  /** A URL matching no row falls through to the generic check. */
  lemma {:induction false} NoMatchIsGeneric(table: seq<(seq<string>, Host)>, url: string)
    requires forall j :: 0 <= j < |table| ==> !AnyOccurs(table[j].0, url)
    ensures FirstMatch(table, url) == Generic
  {
    if |table| > 0 {
      assert !AnyOccurs(table[0].0, url);
      NoMatchIsGeneric(table[1..], url);
    }
  }

  /** The chain of tests in `get_media` is the ordered table: Reddit beats
      Imgur, which beats Gfycat, which beats Giphy, and only a URL containing
      none of the five patterns reaches the generic branch. */
  lemma ClassifyIsFirstMatch(url: string)
    ensures Classify(url) == FirstMatch(HostTable, url)
    ensures Classify(url) == Generic <==>
      && !Text.Contains(url, "redd.it") && !Text.Contains(url, "reddituploads.com")
      && !Text.Contains(url, "imgur.com") && !Text.Contains(url, "gfycat.com")
      && !Text.Contains(url, "giphy.com")
  {
    var reddit := AnyOccurs(HostTable[0].0, url);
    assert reddit <==> Text.Contains(url, "redd.it") || Text.Contains(url, "reddituploads.com") by {
      if Text.Contains(url, "redd.it") {
        assert Text.Contains(url, HostTable[0].0[0]);
      }
      if Text.Contains(url, "reddituploads.com") {
        assert Text.Contains(url, HostTable[0].0[1]);
      }
    }
    assert AnyOccurs(HostTable[1].0, url) <==> Text.Contains(url, "imgur.com") by {
      if Text.Contains(url, "imgur.com") {
        assert Text.Contains(url, HostTable[1].0[0]);
      }
    }
    assert AnyOccurs(HostTable[2].0, url) <==> Text.Contains(url, "gfycat.com") by {
      if Text.Contains(url, "gfycat.com") {
        assert Text.Contains(url, HostTable[2].0[0]);
      }
    }
    assert AnyOccurs(HostTable[3].0, url) <==> Text.Contains(url, "giphy.com") by {
      if Text.Contains(url, "giphy.com") {
        assert Text.Contains(url, HostTable[3].0[0]);
      }
    }
    var k :| 0 <= k <= |HostTable| &&
      (k < |HostTable| ==> AnyOccurs(HostTable[k].0, url)) &&
      (forall j :: 0 <= j < k ==> !AnyOccurs(HostTable[j].0, url));
    if k < |HostTable| {
      FirstMatchWins(HostTable, url, k);
    } else {
      NoMatchIsGeneric(HostTable, url);
    }
  }

  // ---------------------------------------------------------------------------
  // Shared steps

  /** `Path(urlsplit(url).path).name`. */
  function UrlName(url: string): (r: string)
    ensures r == "" || IsPart(r)
  {
    Name(Parse(UrlSplit.PathOf(url)))
  }

  /** `save_file`: the status is checked first, then the target is opened
      for writing, and the target path is returned. `folder` is the media
      folder, which `get_media` has made sure exists: opening it as a file
      raises. The model knows of no other directory. */
  function SaveFile(web: Web, folder: Path, d: Download): (r: Result<Path>)
    ensures r.Ok? <==> web.status(d.url) == 200 && d.target != folder
    ensures r.Ok? ==> r.value == d.target
    ensures web.status(d.url) != 200 ==> r == Err(BadStatus(d.url, web.status(d.url)))
    ensures web.status(d.url) == 200 && d.target == folder ==> r == Err(IsADirectory(d.url))
  {
    if web.status(d.url) != 200 then Err(BadStatus(d.url, web.status(d.url)))
    else if d.target == folder then Err(IsADirectory(d.url))
    else Ok(d.target)
  }

  // ---------------------------------------------------------------------------
  // Reddit

  /** A URL file name without suffix, with ".jpg" added, is a component;
      unless it was empty, its suffix is then ".jpg". */
  lemma JpgPart(name: string)
    requires name == "" || IsPart(name)
    ensures IsPart(name + ".jpg")
    ensures name != "" ==> Suffix(name + ".jpg") == ".jpg"
  {
    var fixed := name + ".jpg";
    assert forall i :: 0 <= i < |name| ==> fixed[i] == name[i];
    assert fixed[|name|..] == ".jpg";
    if name != "" {
      AddedSuffix(name, ".jpg");
    }
  }

  /** What `get_reddit_media` downloads and where it saves it. A path whose
      name has no suffix gets ".jpg" on both the file name and the URL. */
  function RedditDownload(mediaFolder: string, url: string): (d: Download)
    ensures var name := UrlName(url);
      && (d.url == url + ".jpg" <==> Suffix(name) == "")
      && (Suffix(name) != "" ==> d.url == url)
      && Name(d.target) == (if Suffix(name) == "" then name + ".jpg" else name)
    ensures var folder := Parse(mediaFolder);
      d.target == Path(folder.absolute, folder.parts + [Name(d.target)])
    ensures UrlName(url) != "" ==> Suffix(Name(d.target)) != ""
  {
    var folder := Parse(mediaFolder);
    var name := UrlName(url);
    if Suffix(name) == "" then
      var fixed := name + ".jpg";
      JpgPart(name);
      JoinPart(folder, fixed);
      Download(url + ".jpg", JoinStr(folder, fixed))
    else
      JoinPart(folder, name);
      Download(url, JoinStr(folder, name))
  }

  function RedditMedia(web: Web, mediaFolder: string, url: string): Result<Path>
  {
    SaveFile(web, Parse(mediaFolder), RedditDownload(mediaFolder, url))
  }

  // ---------------------------------------------------------------------------
  // Imgur

  const ImgurApi := "https://api.imgur.com/3/"

  /** The API URL `get_imgur_endpoint` requests for an object kind. */
  function ImgurEndpoint(url: string, kind: string): string
  {
    ImgurApi + kind + "/" + Stem(UrlName(url))
  }

  /** `get_imgur_endpoint`: the answer's data, after a 200. */
  function ImgurFetch(web: Web, url: string, kind: string): (r: Result<ImgurData>)
    ensures r.Ok? <==> web.status(ImgurEndpoint(url, kind)) == 200
    ensures r.Ok? ==> r.value == web.imgur(ImgurEndpoint(url, kind))
  {
    var endpoint := ImgurEndpoint(url, kind);
    if web.status(endpoint) == 200 then Ok(web.imgur(endpoint))
    else Err(BadStatus(endpoint, web.status(endpoint)))
  }

  /** `get_imgur_image_media`: downloads a direct image link into the folder
      under the link's file name. A link whose path has no file name makes
      the download open the folder itself, which raises. */
  function ImgurImageMedia(web: Web, mediaFolder: string, link: string): (r: Result<Path>)
    ensures r.Ok? <==> web.status(link) == 200 && UrlName(link) != ""
    ensures r.Ok? ==> r.value == JoinStr(Parse(mediaFolder), UrlName(link))
    ensures web.status(link) == 200 && UrlName(link) == "" ==> r == Err(IsADirectory(link))
  {
    JoinName(Parse(mediaFolder), UrlName(link));
    SaveFile(web, Parse(mediaFolder), Download(link, JoinStr(Parse(mediaFolder), UrlName(link))))
  }

  /** `get_imgur_image`. */
  function ImgurImage(web: Web, mediaFolder: string, url: string): (r: Result<Path>)
    ensures r.Ok? ==> var data := web.imgur(ImgurEndpoint(url, "image"));
      data.link.Some? && r == ImgurImageMedia(web, mediaFolder, data.link.value)
    ensures r.Ok? ==> web.status(ImgurEndpoint(url, "image")) == 200
    ensures var endpoint := ImgurEndpoint(url, "image");
      var link := web.imgur(endpoint).link;
      web.status(endpoint) == 200 ==>
        r == if link.Some? then ImgurImageMedia(web, mediaFolder, link.value) else Err(MissingKey("link"))
  {
    var data :- ImgurFetch(web, url, "image");
    match data.link
    case None => Err(MissingKey("link"))
    case Some(link) => ImgurImageMedia(web, mediaFolder, link)
  }

  /** `get_imgur_album`: only the first image of the album is downloaded. */
  function ImgurAlbum(web: Web, mediaFolder: string, url: string): (r: Result<Path>)
    ensures var endpoint := ImgurEndpoint(url, "album");
      var images := web.imgur(endpoint).images;
      web.status(endpoint) == 200 && images.Some? && |images.value| > 0 ==>
        r == ImgurImageMedia(web, mediaFolder, images.value[0])
    ensures var images := web.imgur(ImgurEndpoint(url, "album")).images;
      r.Ok? ==> (images.Some? && |images.value| > 0 &&
        r.value == JoinStr(Parse(mediaFolder), UrlName(images.value[0])))
    ensures var images := web.imgur(ImgurEndpoint(url, "album")).images;
      images == Some([]) ==> r.Err?
    ensures r.Ok? ==> web.status(ImgurEndpoint(url, "album")) == 200
  {
    var data :- ImgurFetch(web, url, "album");
    match data.images
    case None => Err(MissingKey("images"))
    case Some(images) =>
      if |images| == 0 then Err(EmptyAlbum) else ImgurImageMedia(web, mediaFolder, images[0])
  }

  /** `get_imgur_gallery`: asks the gallery endpoint whether the link is an
      album, then starts over as an album or as an image. */
  function ImgurGallery(web: Web, mediaFolder: string, url: string): (r: Result<Path>)
    ensures var endpoint := ImgurEndpoint(url, "gallery");
      var isAlbum := web.imgur(endpoint).isAlbum;
      web.status(endpoint) == 200 && isAlbum.Some? ==>
        r == if isAlbum.value then ImgurAlbum(web, mediaFolder, url) else ImgurImage(web, mediaFolder, url)
    ensures var endpoint := ImgurEndpoint(url, "gallery");
      r.Ok? ==> web.status(endpoint) == 200 && web.imgur(endpoint).isAlbum.Some?
  {
    var data :- ImgurFetch(web, url, "gallery");
    match data.isAlbum
    case None => Err(MissingKey("is_album"))
    case Some(isAlbum) =>
      if isAlbum then ImgurAlbum(web, mediaFolder, url) else ImgurImage(web, mediaFolder, url)
  }

  /** `get_imgur_media`: both credentials must be non-empty before any
      request; then "/a/" means an album, even when "/gallery/" also occurs,
      "/gallery/" a gallery, and anything else a single image. */
  function ImgurMedia(web: Web, s: MediaSettings, url: string): (r: Result<Path>)
    ensures s.imgurClientId == "" ==> r == Err(EmptyCredential("client_id"))
    ensures s.imgurClientId != "" && s.imgurClientSecret == "" ==> r == Err(EmptyCredential("client_secret"))
    ensures s.imgurClientId != "" && s.imgurClientSecret != "" ==>
      && (Text.Contains(url, "/a/") ==> r == ImgurAlbum(web, s.mediaFolder, url))
      && (!Text.Contains(url, "/a/") && Text.Contains(url, "/gallery/") ==> r == ImgurGallery(web, s.mediaFolder, url))
      && (!Text.Contains(url, "/a/") && !Text.Contains(url, "/gallery/") ==> r == ImgurImage(web, s.mediaFolder, url))
  {
    if s.imgurClientId == "" then Err(EmptyCredential("client_id"))
    else if s.imgurClientSecret == "" then Err(EmptyCredential("client_secret"))
    else if Text.Contains(url, "/a/") then ImgurAlbum(web, s.mediaFolder, url)
    else if Text.Contains(url, "/gallery/") then ImgurGallery(web, s.mediaFolder, url)
    else ImgurImage(web, s.mediaFolder, url)
  }

  // ---------------------------------------------------------------------------
  // Gfycat

  const GfycatApi := "https://api.gfycat.com/v1/gfycats/"

  /** The name `get_gfycat_media` asks the API about: the stem of the path. */
  function GfycatName(url: string): string
  {
    Stem(UrlName(url))
  }

  /** A page link and a direct link whose file names differ only by an added
      extension ask the Imgur and Gfycat APIs about the same object. */
  lemma EndpointIgnoresExtension(page: string, direct: string, ext: string, kind: string)
    requires UrlName(page) != "" && Suffix(UrlName(page)) == ""
    requires |ext| >= 2 && ext[0] == '.' && '.' !in ext[1..]
    requires UrlName(direct) == UrlName(page) + ext
    ensures ImgurEndpoint(page, kind) == ImgurEndpoint(direct, kind)
    ensures GfycatName(page) == GfycatName(direct) == UrlName(page)
  {
    AddedSuffix(UrlName(page), ext);
    assert Stem(UrlName(page)) + "" == UrlName(page);
  }

  lemma GifSuffix(p: Path)
    ensures WithSuffix(p, ".gif").Some? ==> Suffix(Name(WithSuffix(p, ".gif").value)) == ".gif"
  {
    if Name(p) != "" {
      AddedSuffix(Stem(Name(p)), ".gif");
    }
  }

  lemma GifInFolder(folder: Path, name: string)
    requires Normal(folder)
    ensures IsPart(name) ==>
      WithSuffix(JoinStr(folder, name), ".gif") == Some(Path(folder.absolute, folder.parts + [Stem(name) + ".gif"]))
  {
    if IsPart(name) {
      JoinPart(folder, name);
      WithGifSuffix(JoinStr(folder, name));
    }
  }

  /** Where `get_gfycat_media` saves the GIF: folder/name with its suffix
      replaced by ".gif". With an empty name it is the folder itself that
      gets the new suffix, and a folder with no name raises. */
  function GfycatFilePath(mediaFolder: string, name: string): (r: Option<Path>)
    ensures r.None? <==> Name(JoinStr(Parse(mediaFolder), name)) == ""
    ensures r.Some? ==> Suffix(Name(r.value)) == ".gif"
    ensures IsPart(name) ==>
      var folder := Parse(mediaFolder);
      r == Some(Path(folder.absolute, folder.parts + [Stem(name) + ".gif"]))
  {
    var folder := Parse(mediaFolder);
    var joined := JoinStr(folder, name);
    GifSuffix(joined);
    GifInFolder(folder, name);
    WithSuffix(joined, ".gif")
  }

  /** `get_gfycat_media`: asks the API about the path's stem, then saves the
      GIF it names under a ".gif" file name. */
  function GfycatMedia(web: Web, mediaFolder: string, url: string): (r: Result<Path>)
    ensures r.Ok? ==> web.status(GfycatApi + GfycatName(url)) == 200
    ensures r.Ok? ==> web.gfycatGifUrl(GfycatApi + GfycatName(url)).Some?
    ensures r.Ok? ==> GfycatFilePath(mediaFolder, GfycatName(url)) == Some(r.value)
    ensures r.Ok? ==>
      r == SaveFile(web, Parse(mediaFolder), Download(web.gfycatGifUrl(GfycatApi + GfycatName(url)).value, r.value))
    ensures var endpoint := GfycatApi + GfycatName(url);
      var gif := web.gfycatGifUrl(endpoint);
      var target := GfycatFilePath(mediaFolder, GfycatName(url));
      web.status(endpoint) == 200 && gif.Some? && target.Some? ==>
        r == SaveFile(web, Parse(mediaFolder), Download(gif.value, target.value))
  {
    var name := GfycatName(url);
    var endpoint := GfycatApi + name;
    if web.status(endpoint) != 200 then Err(BadStatus(endpoint, web.status(endpoint)))
    else
      match web.gfycatGifUrl(endpoint)
      case None => Err(MissingKey("gifUrl"))
      case Some(gif) =>
        match GfycatFilePath(mediaFolder, name)
        case None => Err(EmptyName)
        case Some(target) => SaveFile(web, Parse(mediaFolder), Download(gif, target))
  }

  // ---------------------------------------------------------------------------
  // Giphy

  const GiphyOembed := "https://giphy.com/services/oembed/?url="

  /** MD5 of the GIF Giphy serves in place of content that is gone. */
  const PlaceholderMd5 := "59a41d58693283c72d9da8ae0561e4e5"

  /** The file path exactly as `get_giphy_media` builds it: the folder joined
      with the whole parent of the URL path, then ".gif". */
  function GiphyFilePathAsWritten(mediaFolder: string, url: string): Option<Path>
  {
    WithSuffix(JoinPath(Parse(mediaFolder), Parent(Parse(UrlSplit.PathOf(url)))), ".gif")
  }

  /** For a link with a host the URL path is absolute, so the join discards
      the media folder: the file lands at the URL's parent directory plus
      ".gif", for every media folder. */
  lemma GiphyAsWrittenIgnoresFolder(mediaFolder: string, url: string)
    requires UrlSplit.HasNetloc(url) && UrlSplit.PathOf(url) != ""
    ensures var parent := Parent(Parse(UrlSplit.PathOf(url)));
      && parent.absolute
      && GiphyFilePathAsWritten(mediaFolder, url) == WithSuffix(parent, ".gif")
      && (GiphyFilePathAsWritten(mediaFolder, url).Some? ==> GiphyFilePathAsWritten(mediaFolder, url).value.absolute)
  {
    UrlSplit.NetlocPathIsRooted(url);
  }

  lemma ParentNameIsPart(p: Path)
    requires Normal(p)
    ensures Name(Parent(p)) == "" || IsPart(Name(Parent(p)))
  {
    if |p.parts| > 0 {
      assert Parent(p).parts == p.parts[..|p.parts| - 1];
    }
  }

  /** The file path `get_giphy_media` evidently means: inside the media
      folder, named after the directory that holds the GIF. */
  function GiphyFilePath(mediaFolder: string, url: string): (r: Option<Path>)
    ensures var id := Name(Parent(Parse(UrlSplit.PathOf(url))));
      r.Some? <==> id != ""
    ensures var id := Name(Parent(Parse(UrlSplit.PathOf(url))));
      var folder := Parse(mediaFolder);
      r.Some? ==>
        && r.value == Path(folder.absolute, folder.parts + [Name(r.value)])
        && Suffix(Name(r.value)) == ".gif"
        && Stem(Name(r.value)) == Stem(id)
  {
    var folder := Parse(mediaFolder);
    var id := Name(Parent(Parse(UrlSplit.PathOf(url))));
    if id == "" then None
    else
      ParentNameIsPart(Parse(UrlSplit.PathOf(url)));
      JoinPart(folder, id);
      WithGifSuffix(JoinStr(folder, id));
      WithSuffix(JoinStr(folder, id), ".gif")
  }

  /** `get_giphy_media`: asks the oEmbed endpoint for the GIF URL, saves it,
      and refuses a file whose MD5 is the placeholder's. */
  function GiphyMedia(web: Web, mediaFolder: string, url: string): (r: Result<Path>)
    ensures var gif := web.giphyEntry(GiphyOembed + url, url);
      r.Ok? ==> gif.Some? && web.md5Hex(gif.value) != PlaceholderMd5
    ensures var gif := web.giphyEntry(GiphyOembed + url, url);
      gif.Some? && web.md5Hex(gif.value) == PlaceholderMd5 ==> r.Err?
    ensures r.Ok? ==> GiphyFilePath(mediaFolder, url) == Some(r.value)
    ensures r.Ok? ==>
      && web.status(GiphyOembed + url) == 200
      && r == GiphySave(web, Parse(mediaFolder), web.giphyEntry(GiphyOembed + url, url).value, r.value)
    ensures var gif := web.giphyEntry(GiphyOembed + url, url);
      var target := GiphyFilePath(mediaFolder, url);
      web.status(GiphyOembed + url) == 200 && gif.Some? && target.Some? ==>
        r == GiphySave(web, Parse(mediaFolder), gif.value, target.value)
  {
    var endpoint := GiphyOembed + url;
    if web.status(endpoint) != 200 then Err(BadStatus(endpoint, web.status(endpoint)))
    else
      match web.giphyEntry(endpoint, url)
      case None => Err(MissingKey(url))
      case Some(gif) =>
        match GiphyFilePath(mediaFolder, url)
        case None => Err(EmptyName)
        case Some(target) => GiphySave(web, Parse(mediaFolder), gif, target)
  }

  /** The download step of `get_giphy_media`: save, then refuse the
      placeholder GIF. */
  function GiphySave(web: Web, folder: Path, gif: string, target: Path): (r: Result<Path>)
    ensures r.Ok? <==> web.status(gif) == 200 && target != folder && web.md5Hex(gif) != PlaceholderMd5
    ensures r.Ok? ==> r.value == target
  {
    var saved :- SaveFile(web, folder, Download(gif, target));
    if web.md5Hex(gif) == PlaceholderMd5 then Err(PlaceholderGif(gif)) else Ok(saved)
  }

  // ---------------------------------------------------------------------------
  // Generic links

  const ImageFormats: seq<string> := ["image/png", "image/jpeg", "image/gif", "image/webp"]

  /** The `else` branch of `get_media`: a link whose content type is exactly
      one of the four image types is downloaded under its own file name; a
      failed download, including one that opens the folder itself because
      the path has no file name, means no media; any other type raises. */
  function GenericMedia(web: Web, mediaFolder: string, url: string): (r: Result<Option<Path>>)
    ensures var ct := web.contentType(url);
      r.Ok? <==> ct.Some? && ct.value in ImageFormats
    ensures r == Ok(None) <==> r.Ok? && (web.status(url) != 200 || UrlName(url) == "")
    ensures r.Ok? && r.value.Some? ==> r.value.value == JoinStr(Parse(mediaFolder), UrlName(url))
    ensures r.Err? ==> r.error == MissingKey("content-type") || r.error == NotAnImage(url)
  {
    match web.contentType(url)
    case None => Err(MissingKey("content-type"))
    case Some(contentType) =>
      if contentType in ImageFormats then
        JoinName(Parse(mediaFolder), UrlName(url));
        match SaveFile(web, Parse(mediaFolder), Download(url, JoinStr(Parse(mediaFolder), UrlName(url))))
        case Ok(path) => Ok(Some(path))
        case Err(_) => Ok(None)
      else Err(NotAnImage(url))
  }

  // ---------------------------------------------------------------------------
  // get_media

  function Lift(r: Result<Path>): Result<Option<Path>>
  {
    match r
    case Ok(p) => Ok(Some(p))
    case Err(e) => Err(e)
  }

  /** `get_media(url, settings)`: the dispatch, with the strategy's result;
      `Ok(None)` is Python's `None`. */
  function GetMedia(web: Web, s: MediaSettings, url: string): (r: Result<Option<Path>>)
    ensures r == Ok(None) ==> Classify(url) == Generic
    ensures Classify(url) == Reddit ==> r == Lift(RedditMedia(web, s.mediaFolder, url))
    ensures Classify(url) == Imgur ==> r == Lift(ImgurMedia(web, s, url))
    ensures Classify(url) == Gfycat ==> r == Lift(GfycatMedia(web, s.mediaFolder, url))
    ensures Classify(url) == Giphy ==> r == Lift(GiphyMedia(web, s.mediaFolder, url))
    ensures Classify(url) == Generic ==> r == GenericMedia(web, s.mediaFolder, url)
    ensures r.Ok? && r.value.Some? && (Classify(url) == Gfycat || Classify(url) == Giphy) ==>
      Suffix(Name(r.value.value)) == ".gif"
  {
    match Classify(url)
    case Reddit => Lift(RedditMedia(web, s.mediaFolder, url))
    case Imgur => Lift(ImgurMedia(web, s, url))
    case Gfycat => Lift(GfycatMedia(web, s.mediaFolder, url))
    case Giphy => Lift(GiphyMedia(web, s.mediaFolder, url))
    case Generic => GenericMedia(web, s.mediaFolder, url)
  }

  // Each strategy reads no content type: its result is the same for a web
  // whose content types alone differ.

  lemma ImgurFetchIgnoresContentType(web: Web, ct: string -> Option<string>, url: string, kind: string)
    ensures ImgurFetch(web.(contentType := ct), url, kind) == ImgurFetch(web, url, kind)
  {
  }

  lemma ImgurImageMediaIgnoresContentType(web: Web, ct: string -> Option<string>, mediaFolder: string, link: string)
    ensures ImgurImageMedia(web.(contentType := ct), mediaFolder, link) == ImgurImageMedia(web, mediaFolder, link)
  {
  }

  lemma ImgurImageIgnoresContentType(web: Web, ct: string -> Option<string>, mediaFolder: string, url: string)
    ensures ImgurImage(web.(contentType := ct), mediaFolder, url) == ImgurImage(web, mediaFolder, url)
  {
    ImgurFetchIgnoresContentType(web, ct, url, "image");
    var link := web.imgur(ImgurEndpoint(url, "image")).link;
    if link.Some? {
      ImgurImageMediaIgnoresContentType(web, ct, mediaFolder, link.value);
    }
  }

  lemma ImgurAlbumIgnoresContentType(web: Web, ct: string -> Option<string>, mediaFolder: string, url: string)
    ensures ImgurAlbum(web.(contentType := ct), mediaFolder, url) == ImgurAlbum(web, mediaFolder, url)
  {
    ImgurFetchIgnoresContentType(web, ct, url, "album");
    var images := web.imgur(ImgurEndpoint(url, "album")).images;
    if images.Some? && |images.value| > 0 {
      ImgurImageMediaIgnoresContentType(web, ct, mediaFolder, images.value[0]);
    }
  }

  lemma ImgurGalleryIgnoresContentType(web: Web, ct: string -> Option<string>, mediaFolder: string, url: string)
    ensures ImgurGallery(web.(contentType := ct), mediaFolder, url) == ImgurGallery(web, mediaFolder, url)
  {
    ImgurFetchIgnoresContentType(web, ct, url, "gallery");
    ImgurImageIgnoresContentType(web, ct, mediaFolder, url);
    ImgurAlbumIgnoresContentType(web, ct, mediaFolder, url);
  }

  lemma ImgurIgnoresContentType(web: Web, ct: string -> Option<string>, s: MediaSettings, url: string)
    ensures ImgurMedia(web.(contentType := ct), s, url) == ImgurMedia(web, s, url)
  {
    ImgurImageIgnoresContentType(web, ct, s.mediaFolder, url);
    ImgurAlbumIgnoresContentType(web, ct, s.mediaFolder, url);
    ImgurGalleryIgnoresContentType(web, ct, s.mediaFolder, url);
  }

  lemma RedditIgnoresContentType(web: Web, ct: string -> Option<string>, mediaFolder: string, url: string)
    ensures RedditMedia(web.(contentType := ct), mediaFolder, url) == RedditMedia(web, mediaFolder, url)
  {
  }

  lemma GfycatIgnoresContentType(web: Web, ct: string -> Option<string>, mediaFolder: string, url: string)
    ensures GfycatMedia(web.(contentType := ct), mediaFolder, url) == GfycatMedia(web, mediaFolder, url)
  {
  }

  lemma GiphySaveIgnoresContentType(web: Web, ct: string -> Option<string>, folder: Path, gif: string, target: Path)
    ensures GiphySave(web.(contentType := ct), folder, gif, target) == GiphySave(web, folder, gif, target)
  {
  }

  lemma GiphyIgnoresContentType(web: Web, ct: string -> Option<string>, mediaFolder: string, url: string)
    ensures GiphyMedia(web.(contentType := ct), mediaFolder, url) == GiphyMedia(web, mediaFolder, url)
  {
    var gif := web.giphyEntry(GiphyOembed + url, url);
    var target := GiphyFilePath(mediaFolder, url);
    if gif.Some? && target.Some? {
      GiphySaveIgnoresContentType(web, ct, Parse(mediaFolder), gif.value, target.value);
    }
  }

  /** A link of a known host never reaches the content-type check: its result
      is the same whatever content type the server would report. */
  lemma KnownHostIgnoresContentType(web: Web, s: MediaSettings, url: string, contentType: string -> Option<string>)
    requires Classify(url) != Generic
    ensures GetMedia(web.(contentType := contentType), s, url) == GetMedia(web, s, url)
  {
    ImgurIgnoresContentType(web, contentType, s, url);
    RedditIgnoresContentType(web, contentType, s.mediaFolder, url);
    GfycatIgnoresContentType(web, contentType, s.mediaFolder, url);
    GiphyIgnoresContentType(web, contentType, s.mediaFolder, url);
  }
}
