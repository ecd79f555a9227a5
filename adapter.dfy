/** The Nyaa tracker adapter: its configuration, the files it reads and writes in the
    release's working directory, and the operations of one upload. */
module Adapter {
  import opened Wrappers
  import opened Metainfo
  import opened Description
  import opened Category
  import opened Search
  import opened Payload
  import Strings

  /** The release's working directory (`tmp/<uuid>/`): its torrent files and its text
      files, each by file name. A missing key is a file that does not exist. */
  class WorkDir {
    var torrents: map<string, Torrent>
    var texts: map<string, string>

    constructor (torrents: map<string, Torrent>, texts: map<string, string>)
      ensures this.torrents == torrents && this.texts == texts
    {
      this.torrents := torrents;
      this.texts := texts;
    }
  }

  /** The parts of the release context the adapter reads, after the language and
      image-host collaborators have run. `tvPack` and `repack` keep the source's
      truthiness (non-zero, non-empty); `mal` is 0 when the release has no
      MyAnimeList id; `trackTypes` holds the `@type` of each parsed MediaInfo track. */
  datatype Meta = Meta(
    name: string,
    uuid: string,
    anon: int,
    tvPack: int,
    repack: string,
    mal: nat,
    isDisc: string,
    images: seq<Image>,
    subtitleLanguages: seq<string>,
    trackTypes: seq<string>,
    debug: bool)

  /** The outcome of the upload POST: a connection error or timeout, or a response
      with its status, its body and the URL it finally redirected to. */
  datatype PostResult =
    | PostFailed
    | PostResponse(status: nat, text: string, finalUrl: string)

  /** What went wrong inside the upload's `try`. */
  datatype UploadCause =
    | TorrentMissing
    | NetworkError
    | HttpError(status: nat)
    | NoTorrentId

  /** An error escaping `upload`: an unwrapped `NameError`, or an `UploadException`. */
  datatype UploadError =
    | NameError(name: string)
    | UploadException(cause: UploadCause)

  /** A multipart upload form: the text fields, and the tracker torrent that goes in the
      `torrent_file` field under the file name `filename`. */
  datatype UploadForm = UploadForm(fields: map<string, string>, filename: string, torrent: Torrent)

  /** A finished upload: in debug mode the form that would have been sent, otherwise
      the id the tracker assigned and the detail page it redirected to. */
  datatype Uploaded =
    | DryRun(form: UploadForm)
    | Live(torrentId: nat, detailsUrl: string)

  function TrackerTorrentName(tracker: string): string {
    "[" + tracker + "].torrent"
  }

  function DescriptionName(tracker: string): string {
    "[" + tracker + "]DESCRIPTION.txt"
  }

  const BdSummaryName := "BD_SUMMARY_00.txt"
  const MediaInfoName := "MEDIAINFO.txt"
  const ResponseName := "upload_response.html"

  /** The torrent files after the first pass: when `<torrentFilename>.torrent` exists,
      `[<tracker>].torrent` becomes its rewrite and nothing else changes; when it does
      not, nothing changes at all. */
  function EditedTorrents(torrents: map<string, Torrent>, tracker: string, torrentFilename: string,
                          announceUrl: string): (r: map<string, Torrent>)
    ensures torrentFilename + ".torrent" !in torrents ==> r == torrents
    ensures torrentFilename + ".torrent" in torrents ==>
      && r.Keys == torrents.Keys + {TrackerTorrentName(tracker)}
      && r[TrackerTorrentName(tracker)] == Rewrite(torrents[torrentFilename + ".torrent"], announceUrl)
    ensures forall k :: k in torrents && k != TrackerTorrentName(tracker) ==> k in r && r[k] == torrents[k]
  {
    var base := torrentFilename + ".torrent";
    if base in torrents then torrents[TrackerTorrentName(tracker) := Rewrite(torrents[base], announceUrl)]
    else torrents
  }

  /** The torrent files after the second pass: `[<tracker>].torrent`, when it exists,
      gets the new announce URL and comment; nothing else changes. */
  function PatchedTorrents(torrents: map<string, Torrent>, tracker: string, newTracker: string,
                           comment: string): (r: map<string, Torrent>)
    ensures r.Keys == torrents.Keys
    ensures TrackerTorrentName(tracker) in torrents ==>
      r[TrackerTorrentName(tracker)] == Patch(torrents[TrackerTorrentName(tracker)], newTracker, comment)
    ensures forall k :: k in torrents && k != TrackerTorrentName(tracker) ==> r[k] == torrents[k]
  {
    var name := TrackerTorrentName(tracker);
    if name in torrents then torrents[name := Patch(torrents[name], newTracker, comment)] else torrents
  }

  /** Reading a text file, if it exists: its contents with universal newlines, so
      never a carriage return, and exactly what was written when that held none. */
  function ReadText(texts: map<string, string>, name: string): (r: Option<string>)
    ensures r.Some? <==> name in texts
    ensures r.Some? ==> forall k :: 0 <= k < |r.value| ==> r.value[k] != '\r'
    ensures r.Some? ==> |r.value| <= |texts[name]|
    ensures r.Some? && (forall k :: 0 <= k < |texts[name]| ==> texts[name][k] != '\r') ==>
              r.value == texts[name]
  {
    if name in texts then
      Strings.UniversalKeepsPlain(texts[name]);
      Some(Strings.Universal(texts[name]))
    else None
  }

  /** What the description composer reads for this release. */
  function DescInputFor(meta: Meta, texts: map<string, string>, signature: string): DescInput {
    DescInput(meta.images, meta.isDisc, ReadText(texts, BdSummaryName), meta.subtitleLanguages,
              ReadText(texts, MediaInfoName), meta.trackTypes, signature)
  }

  /** The Nyaa adapter with its fixed endpoints and its configuration. */
  class Nyaa {
    const tracker: string := "NYAA"
    const baseUrl: string := BaseUrl
    const torrentUrl: string := TorrentUrl
    const announceUrl: string := "http://nyaa.tracker.wf:7777/announce"
    const signature: string := ""
    /** The configured session cookie, if any. */
    const sessionCookie: Option<string>
    /** The tracker's configured anonymity default. */
    const configAnon: bool
    /** Whether the HTTP session has been closed. */
    var sessionClosed: bool
    /** The upload forms handed to the session's POST, oldest first. */
    var posted: seq<UploadForm>

    constructor (sessionCookie: Option<string>, configAnon: bool)
      ensures this.sessionCookie == sessionCookie && this.configAnon == configAnon
      ensures !sessionClosed && posted == []
    {
      this.sessionCookie := sessionCookie;
      this.configAnon := configAnon;
      sessionClosed := false;
      posted := [];
    }

    /** The working directory's text files once the description has been written. */
    function Described(meta: Meta, texts: map<string, string>): map<string, string> {
      texts[DescriptionName(tracker) := Compose(DescInputFor(meta, texts, signature))]
    }

    /** The upload form for this release, with `description` as read back from the
        description file: the payload fields, and `torrent` under the file name
        `<name>.torrent`. */
    predicate IsUploadForm(form: UploadForm, meta: Meta, facts: LanguageFacts, description: string,
                           torrent: Torrent) {
      && form.filename == UploadFilename(meta.name)
      && form.torrent == torrent
      && IsPayload(form.fields, meta.name, CategoryId(facts), meta.mal, description, meta.anon, configAnon,
                   meta.tvPack, meta.repack)
    }

    /** `edit_torrent`: write the first-pass rewrite of the base torrent, if it exists. */
    method EditTorrent(dir: WorkDir, tracker: string, torrentFilename: string)
      modifies dir`torrents
      ensures dir.torrents == EditedTorrents(old(dir.torrents), tracker, torrentFilename, announceUrl)
    {
      var base := torrentFilename + ".torrent";
      if base in dir.torrents {
        var newTorrent := EditMetainfo(dir.torrents[base], announceUrl);
        dir.torrents := dir.torrents[TrackerTorrentName(tracker) := newTorrent];
      }
    }

    /** `generate_description`: compose the description and write it to
        `[NYAA]DESCRIPTION.txt`. */
    method GenerateDescription(dir: WorkDir, meta: Meta)
      modifies dir`texts
      ensures dir.texts == Described(meta, old(dir.texts))
    {
      var input := DescInputFor(meta, dir.texts, signature);
      var finalDescription := ComposeDescription(input);
      dir.texts := dir.texts[DescriptionName(tracker) := finalDescription];
    }

    /** `search_existing`: the titles of the tracker's RSS search results; an empty list
        without a session cookie and whenever the request, its status or the parse fails. */
    method SearchExisting(response: SearchResponse) returns (titles: seq<string>)
      ensures sessionCookie.None? ==> titles == []
      ensures response.RequestFailed? ==> titles == []
      ensures response.Response? && (response.status >= 400 || response.text == "" || response.parsed.None?)
              ==> titles == []
      ensures sessionCookie.Some? && response.Response? && response.status < 400 && response.text != ""
              && response.parsed.Some?
              ==> titles == Titles(response.parsed.value.items + response.parsed.value.entries)
    {
      if sessionCookie.None? {
        return [];
      }
      match response
      case RequestFailed =>
        titles := [];
      case Response(status, text, parsed) =>
        if status >= 400 || text == "" || parsed.None? {
          titles := [];
        } else {
          var items := parsed.value.items + parsed.value.entries;
          titles := [];
          for i := 0 to |items|
            invariant titles == Titles(items[..i])
          {
            assert items[..i + 1][..i] == items[..i];
            var titleElement := items[i];
            if titleElement.Some? && titleElement.value != "" {
              titles := titles + [Strings.Strip(titleElement.value)];
            }
          }
          assert items[..|items|] == items;
        }
    }

    /** `add_tracker_torrent`: the second pass on `[<tracker>].torrent`, if it exists. */
    method AddTrackerTorrent(dir: WorkDir, tracker: string, newTracker: string, comment: string)
      modifies dir`torrents
      ensures dir.torrents == PatchedTorrents(old(dir.torrents), tracker, newTracker, comment)
    {
      var name := TrackerTorrentName(tracker);
      if name in dir.torrents {
        var newTorrent := dir.torrents[name];
        newTorrent := newTorrent.(metainfo := newTorrent.metainfo[AnnounceKey := Str(newTracker)]);
        newTorrent := newTorrent.(metainfo := newTorrent.metainfo[CommentKey := Str(comment)]);
        dir.torrents := dir.torrents[name := newTorrent];
      }
    }

    /** `upload` as written: it edits the torrent, picks the category, writes the
        description, and then evaluates the undefined name `tag` on the display-name
        line. That raises `NameError` on every call, before the `try`, so the error is
        not wrapped, nothing is sent and the session is not closed. */
    method UploadAsWritten(dir: WorkDir, meta: Meta, facts: LanguageFacts) returns (r: Result<Uploaded, UploadError>)
      modifies dir`torrents, dir`texts
      ensures r == Failure(NameError("tag"))
      ensures dir.torrents == EditedTorrents(old(dir.torrents), tracker, "BASE", announceUrl)
      ensures dir.texts == Described(meta, old(dir.texts))
      ensures sessionClosed == old(sessionClosed)
    {
      EditTorrent(dir, tracker, "BASE");
      var catId := CategoryId(facts);
      GenerateDescription(dir, meta);
      var description := Strings.Universal(dir.texts[DescriptionName(tracker)]);
      r := Failure(NameError("tag"));
    }

    /** The live branch of `upload`: post the form, save the response body, fail on an
        error status, read the torrent id from the page the POST redirected to, and give
        `[<tracker>].torrent` its second pass with that page as comment. */
    method PostForm(dir: WorkDir, form: UploadForm, post: PostResult) returns (r: Result<Uploaded, UploadError>)
      modifies this`posted, dir`torrents, dir`texts
      ensures posted == old(posted) + [form]
      ensures post.PostFailed? ==>
        r == Failure(UploadException(NetworkError)) && dir.texts == old(dir.texts) && dir.torrents == old(dir.torrents)
      ensures post.PostResponse? ==>
        && dir.texts == old(dir.texts)[ResponseName := post.text]
        && (post.status >= 400 ==>
              r == Failure(UploadException(HttpError(post.status))) && dir.torrents == old(dir.torrents))
        && (post.status < 400 && ViewId(post.finalUrl).None? ==>
              r == Failure(UploadException(NoTorrentId)) && dir.torrents == old(dir.torrents))
        && (post.status < 400 && ViewId(post.finalUrl).Some? ==>
              && r == Success(Live(ViewId(post.finalUrl).value, post.finalUrl))
              && dir.torrents == PatchedTorrents(old(dir.torrents), tracker, announceUrl, post.finalUrl))
    {
      posted := posted + [form];
      match post
      case PostFailed =>
        r := Failure(UploadException(NetworkError));
      case PostResponse(status, text, finalUrl) =>
        dir.texts := dir.texts[ResponseName := text];
        if status >= 400 {
          r := Failure(UploadException(HttpError(status)));
        } else {
          var detailsUrl := finalUrl;
          match ViewId(detailsUrl)
          case None =>
            r := Failure(UploadException(NoTorrentId));
          case Some(torrentId) =>
            AddTrackerTorrent(dir, tracker, announceUrl, detailsUrl);
            r := Success(Live(torrentId, detailsUrl));
        }
    }

    /** `upload` with the display-name branch on the undefined `tag` left out: edit the
        torrent, write the description, build the form and, unless in debug mode, post
        it and read the torrent id from the page it redirects to. Every outcome closes
        the session; every failure inside the `try` becomes an `UploadException`. */
    method Upload(dir: WorkDir, meta: Meta, facts: LanguageFacts, post: PostResult)
      returns (r: Result<Uploaded, UploadError>)
      modifies this`sessionClosed, this`posted, dir`torrents, dir`texts
      ensures sessionClosed
      ensures var edited := EditedTorrents(old(dir.torrents), tracker, "BASE", announceUrl);
        var described := Described(meta, old(dir.texts));
        if TrackerTorrentName(tracker) in edited && !meta.debug then
          && |posted| == |old(posted)| + 1 && posted[..|old(posted)|] == old(posted)
          && IsUploadForm(posted[|old(posted)|], meta, facts,
                          Strings.Universal(described[DescriptionName(tracker)]),
                          edited[TrackerTorrentName(tracker)])
        else posted == old(posted)
      ensures var edited := EditedTorrents(old(dir.torrents), tracker, "BASE", announceUrl);
        TrackerTorrentName(tracker) !in edited ==>
          && r == Failure(UploadException(TorrentMissing))
          && dir.torrents == edited && dir.texts == Described(meta, old(dir.texts))
      ensures var edited := EditedTorrents(old(dir.torrents), tracker, "BASE", announceUrl);
        var described := Described(meta, old(dir.texts));
        TrackerTorrentName(tracker) in edited && meta.debug ==>
          && r.Success? && r.value.DryRun?
          && IsUploadForm(r.value.form, meta, facts, Strings.Universal(described[DescriptionName(tracker)]),
                          edited[TrackerTorrentName(tracker)])
          && dir.torrents == edited && dir.texts == described
      ensures var edited := EditedTorrents(old(dir.torrents), tracker, "BASE", announceUrl);
        TrackerTorrentName(tracker) in edited && !meta.debug && post.PostFailed? ==>
          && r == Failure(UploadException(NetworkError))
          && dir.torrents == edited && dir.texts == Described(meta, old(dir.texts))
      ensures var edited := EditedTorrents(old(dir.torrents), tracker, "BASE", announceUrl);
        TrackerTorrentName(tracker) in edited && !meta.debug && post.PostResponse? ==>
          && dir.texts == Described(meta, old(dir.texts))[ResponseName := post.text]
          && (post.status >= 400 ==> r == Failure(UploadException(HttpError(post.status))) && dir.torrents == edited)
          && (post.status < 400 && ViewId(post.finalUrl).None? ==>
                r == Failure(UploadException(NoTorrentId)) && dir.torrents == edited)
          && (post.status < 400 && ViewId(post.finalUrl).Some? ==>
                && r == Success(Live(ViewId(post.finalUrl).value, post.finalUrl))
                && dir.torrents == PatchedTorrents(edited, tracker, announceUrl, post.finalUrl))
    {
      EditTorrent(dir, tracker, "BASE");
      var catId := CategoryId(facts);
      GenerateDescription(dir, meta);
      var description := Strings.Universal(dir.texts[DescriptionName(tracker)]);

      var displayName := meta.name;
      var data := BuildPayload(displayName, catId, meta.mal, description, meta.anon, configAnon,
                               meta.tvPack, meta.repack);
      var torrentPath := TrackerTorrentName(tracker);
      var uploadFilename := UploadFilename(meta.name);

      if torrentPath !in dir.torrents {
        r := Failure(UploadException(TorrentMissing));
      } else {
        var form := UploadForm(data, uploadFilename, dir.torrents[torrentPath]);
        assert IsUploadForm(form, meta, facts, description, dir.torrents[torrentPath]);
        if !meta.debug {
          r := PostForm(dir, form, post);
        } else {
          r := Success(DryRun(form));
        }
      }
      sessionClosed := true;
    }
  }
}
