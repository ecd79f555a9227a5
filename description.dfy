/** The release description the Nyaa adapter composes: optional sections in a fixed
    order (Screenshots, Subtitles, BD Info, MediaInfo, signature) joined by newlines. */
module Description {
  import opened Wrappers
  import opened Strings
  import opened Seqs

  /** One screenshot: the thumbnail image URL and the page it links to. */
  datatype Image = Image(imgUrl: string, webUrl: string)

  /** What the composer reads: the release context after the language collaborator has
      run, and the contents of `BD_SUMMARY_00.txt` and `MEDIAINFO.txt` when they exist. */
  datatype DescInput = DescInput(
    images: seq<Image>,
    isDisc: string,
    bdSummary: Option<string>,
    subtitleLanguages: seq<string>,
    mediainfo: Option<string>,
    trackTypes: seq<string>,
    signature: string)

  /** The sections a description can hold. */
  datatype Section =
    | Screenshots(images: seq<Image>)
    | Subtitles(languages: seq<string>)
    | BdInfo(summary: string)
    | MediaInfo(kept: seq<string>)
    | Signature(text: string)

  /** The position of each kind of section in the description. */
  function Rank(s: Section): nat {
    match s
    case Screenshots(_) => 0
    case Subtitles(_) => 1
    case BdInfo(_) => 2
    case MediaInfo(_) => 3
    case Signature(_) => 4
  }

  function ScreenshotLink(im: Image): string {
    "[![Screenshot](" + im.imgUrl + ")](" + im.webUrl + ") "
  }

  /** The links of all screenshots, one after another. */
  function ScreenshotLinks(images: seq<Image>): string {
    if images == [] then ""
    else ScreenshotLinks(images[..|images| - 1]) + ScreenshotLink(images[|images| - 1])
  }

  const ScreenshotsHeader := "## Screenshots\n\n"

  /** The screenshot links of a concatenation are the links of each part, in turn. */
  lemma {:induction false} ScreenshotLinksAppend(a: seq<Image>, b: seq<Image>)
    ensures ScreenshotLinks(a + b) == ScreenshotLinks(a) + ScreenshotLinks(b)
    decreases |b|
  {
    if b != [] {
      var b' := b[..|b| - 1];
      assert (a + b)[..|a + b| - 1] == a + b';
      ScreenshotLinksAppend(a, b');
    } else {
      assert a + b == a;
    }
  }

  /** The link of the k-th screenshot stands right after the links of the ones before
      it: one link per image, in list order. */
  lemma ScreenshotLinkAt(images: seq<Image>, k: nat)
    requires k < |images|
    ensures var offset := |ScreenshotLinks(images[..k])|;
      var link := ScreenshotLink(images[k]);
      offset + |link| <= |ScreenshotLinks(images)|
      && ScreenshotLinks(images)[offset..offset + |link|] == link
  {
    assert images == images[..k] + [images[k]] + images[k + 1..];
    ScreenshotLinksAppend(images[..k] + [images[k]], images[k + 1..]);
    ScreenshotLinksAppend(images[..k], [images[k]]);
    assert ScreenshotLinks([images[k]]) == ScreenshotLink(images[k]) by {
      assert [images[k]][..0] == [];
    }
  }

  /** The screenshot-accumulating loop. */
  method BuildScreenshotsBlock(images: seq<Image>) returns (block: string)
    ensures block == ScreenshotsHeader + ScreenshotLinks(images)
  {
    block := ScreenshotsHeader;
    for i := 0 to |images|
      invariant block == ScreenshotsHeader + ScreenshotLinks(images[..i])
    {
      assert images[..i + 1][..i] == images[..i];
      block := block + ScreenshotLink(images[i]);
    }
    assert images[..|images|] == images;
  }

  /** One `- lang` line per subtitle language. */
  function SubtitleLines(languages: seq<string>): (lines: seq<string>)
    ensures |lines| == |languages|
    ensures forall i :: 0 <= i < |languages| ==> lines[i] == "- " + languages[i]
  {
    seq(|languages|, i requires 0 <= i < |languages| => "- " + languages[i])
  }

  /** The subtitle list reads back, line by line, as one `- lang` line per language in
      input order, as long as no language label itself holds a line break. */
  lemma SubtitleLinesReadBack(languages: seq<string>)
    requires languages != []
    requires forall i :: 0 <= i < |languages| ==> '\n' !in languages[i]
    ensures Split(Join("\n", SubtitleLines(languages)), "\n") == SubtitleLines(languages)
  {
    var lines := SubtitleLines(languages);
    forall k | 0 <= k < |lines| ensures "\n"[0] !in lines[k] {
      assert lines[k] == "- " + languages[k];
    }
    SplitJoin(lines, "\n");
  }

  const MediaInfoSeparator := "\n\n"

  /** The track types whose MediaInfo blocks are kept. */
  predicate IsKeptTrack(trackType: string) {
    trackType == "General" || trackType == "Video" || trackType == "Audio"
  }

  function Min(a: nat, b: nat): nat {
    if a <= b then a else b
  }

  /** The positions of the kept MediaInfo blocks: pieces and tracks are paired by
      position and only as far as the shorter of the two goes. */
  function KeptIndices(pieces: seq<string>, trackTypes: seq<string>): (idx: seq<nat>)
    ensures forall k :: 0 <= k < |idx| ==> idx[k] < |pieces| && idx[k] < |trackTypes|
  {
    Where(trackTypes, Min(|pieces|, |trackTypes|), IsKeptTrack)
  }

  function KeptPieces(pieces: seq<string>, trackTypes: seq<string>): seq<string> {
    Select(pieces, KeptIndices(pieces, trackTypes))
  }

  /** Piece i is kept iff it has a partner track and that track is General, Video or
      Audio; kept pieces are verbatim, in their original order, and never outnumber
      either list. */
  lemma KeptPiecesSpec(pieces: seq<string>, trackTypes: seq<string>)
    ensures var idx := KeptIndices(pieces, trackTypes);
      && (forall i: nat :: i in idx <==> i < |pieces| && i < |trackTypes| && IsKeptTrack(trackTypes[i]))
      && (forall k, l :: 0 <= k < l < |idx| ==> idx[k] < idx[l])
      && |KeptPieces(pieces, trackTypes)| == |idx|
      && (forall k :: 0 <= k < |idx| ==> KeptPieces(pieces, trackTypes)[k] == pieces[idx[k]])
    ensures |KeptPieces(pieces, trackTypes)| <= |pieces|
    ensures |KeptPieces(pieces, trackTypes)| <= |trackTypes|
  {
    var n := Min(|pieces|, |trackTypes|);
    forall i: nat | i < |pieces| && i < |trackTypes| && IsKeptTrack(trackTypes[i])
      ensures i in KeptIndices(pieces, trackTypes)
    {
      WhereComplete(trackTypes, n, IsKeptTrack, i);
    }
  }

  /** The zip loop that keeps the General, Video and Audio blocks. */
  method FilterMediaInfo(pieces: seq<string>, trackTypes: seq<string>) returns (kept: seq<string>)
    ensures kept == KeptPieces(pieces, trackTypes)
  {
    var n := Min(|pieces|, |trackTypes|);
    kept := [];
    for i := 0 to n
      invariant kept == Select(pieces, Where(trackTypes, i, IsKeptTrack))
    {
      if IsKeptTrack(trackTypes[i]) {
        kept := kept + [pieces[i]];
      }
    }
  }

  /** When every track is kept and there is a track for every block, the MediaInfo
      dump comes out verbatim. */
  lemma MediaInfoVerbatimWhenAllKept(content: string, trackTypes: seq<string>)
    requires |Split(content, MediaInfoSeparator)| <= |trackTypes|
    requires forall i :: 0 <= i < |trackTypes| ==> IsKeptTrack(trackTypes[i])
    ensures Join(MediaInfoSeparator, KeptPieces(Split(content, MediaInfoSeparator), trackTypes)) == content
  {
    var pieces := Split(content, MediaInfoSeparator);
    WhereAll(trackTypes, |pieces|, IsKeptTrack);
    assert KeptPieces(pieces, trackTypes) == pieces;
    JoinSplit(content, MediaInfoSeparator);
  }

  /** The text of one section. */
  function Render(s: Section): string {
    match s
    case Screenshots(images) => ScreenshotsHeader + ScreenshotLinks(images)
    case Subtitles(languages) => "## Subtitles\n" + Join("\n", SubtitleLines(languages)) + "\n"
    case BdInfo(summary) => "## BD Info\n```\n" + summary + "\n```\n"
    case MediaInfo(kept) => "## MediaInfo\n```\n" + Join(MediaInfoSeparator, kept) + "\n```\n"
    case Signature(text) => text
  }

  function RenderAll(sections: seq<Section>): (parts: seq<string>)
    ensures |parts| == |sections|
    ensures forall i :: 0 <= i < |sections| ==> parts[i] == Render(sections[i])
  {
    seq(|sections|, i requires 0 <= i < |sections| => Render(sections[i]))
  }

  /** Whether the disc summary is shown: a Blu-ray folder with a non-empty summary. */
  predicate HasBdInfo(d: DescInput) {
    d.isDisc == "BDMV" && d.bdSummary.Some? && d.bdSummary.value != ""
  }

  /** The disc summary text (`tech_info`): empty unless a Blu-ray folder has one. */
  function TechInfo(d: DescInput): string {
    if d.isDisc == "BDMV" && d.bdSummary.Some? then d.bdSummary.value else ""
  }

  /** The kept MediaInfo blocks of the dump, when there is one. */
  function MediaInfoKept(d: DescInput): seq<string> {
    match d.mediainfo
    case Some(content) => KeptPieces(Split(content, MediaInfoSeparator), d.trackTypes)
    case None => []
  }

  /** `acc` with `s` appended when the section is present. */
  function AddIf(present: bool, s: Section, acc: seq<Section>): (r: seq<Section>)
    ensures forall x :: x in r <==> x in acc || (present && x == s)
  {
    if present then acc + [s] else acc
  }

  /** The sections of the description, each present only when it has something to show. */
  function Sections(d: DescInput): seq<Section> {
    var screenshots := AddIf(d.images != [], Screenshots(d.images), []);
    var subtitles := AddIf(d.subtitleLanguages != [], Subtitles(d.subtitleLanguages), screenshots);
    var bdInfo := AddIf(TechInfo(d) != "", BdInfo(TechInfo(d)), subtitles);
    var mediaInfo := AddIf(d.mediainfo.Some?, MediaInfo(MediaInfoKept(d)), bdInfo);
    AddIf(d.signature != "", Signature(d.signature), mediaInfo)
  }

  lemma RenderAllSnoc(sections: seq<Section>, s: Section)
    ensures RenderAll(sections + [s]) == RenderAll(sections) + [Render(s)]
  {
  }

  /** `filter(None, parts)`: the non-empty parts, in order. */
  function NonEmpty(parts: seq<string>): seq<string> {
    if parts == [] then []
    else NonEmpty(parts[..|parts| - 1]) + (if parts[|parts| - 1] != "" then [parts[|parts| - 1]] else [])
  }

  /** The composed description. */
  function Compose(d: DescInput): string {
    Join("\n", NonEmpty(RenderAll(Sections(d))))
  }

  /** Appending a section whose rank is above all others keeps the ranks increasing. */
  lemma AddIfOrdered(present: bool, s: Section, acc: seq<Section>)
    requires forall i, j :: 0 <= i < j < |acc| ==> Rank(acc[i]) < Rank(acc[j])
    requires forall x :: x in acc ==> Rank(x) < Rank(s)
    ensures var r := AddIf(present, s, acc);
      forall i, j :: 0 <= i < j < |r| ==> Rank(r[i]) < Rank(r[j])
  {
    if present {
      var r := acc + [s];
      forall i, j | 0 <= i < j < |r| ensures Rank(r[i]) < Rank(r[j]) {
        if j == |acc| {
          assert r[i] in acc;
        }
      }
    }
  }

  /** The sections come in the fixed order, so no kind appears twice. */
  lemma SectionsInOrder(d: DescInput)
    ensures var secs := Sections(d);
      forall i, j :: 0 <= i < j < |secs| ==> Rank(secs[i]) < Rank(secs[j])
  {
    var screenshots := AddIf(d.images != [], Screenshots(d.images), []);
    var subtitles := AddIf(d.subtitleLanguages != [], Subtitles(d.subtitleLanguages), screenshots);
    var bdInfo := AddIf(TechInfo(d) != "", BdInfo(TechInfo(d)), subtitles);
    var mediaInfo := AddIf(d.mediainfo.Some?, MediaInfo(MediaInfoKept(d)), bdInfo);
    AddIfOrdered(d.images != [], Screenshots(d.images), []);
    AddIfOrdered(d.subtitleLanguages != [], Subtitles(d.subtitleLanguages), screenshots);
    AddIfOrdered(TechInfo(d) != "", BdInfo(TechInfo(d)), subtitles);
    AddIfOrdered(d.mediainfo.Some?, MediaInfo(MediaInfoKept(d)), bdInfo);
    AddIfOrdered(d.signature != "", Signature(d.signature), mediaInfo);
  }

  /** Each section is present exactly when its input has something to show, and it
      shows that input: screenshots when there are images, subtitles when there are
      languages, the disc summary for a Blu-ray folder with a non-empty summary, the
      MediaInfo blocks when the dump exists, the signature when it is non-empty. */
  lemma SectionsMembers(d: DescInput)
    ensures forall s :: s in Sections(d) <==>
      || (d.images != [] && s == Screenshots(d.images))
      || (d.subtitleLanguages != [] && s == Subtitles(d.subtitleLanguages))
      || (HasBdInfo(d) && s == BdInfo(d.bdSummary.value))
      || (d.mediainfo.Some? && s == MediaInfo(KeptPieces(Split(d.mediainfo.value, MediaInfoSeparator), d.trackTypes)))
      || (d.signature != "" && s == Signature(d.signature))
  {
  }

  /** No section renders empty, so the `filter(None, ...)` drops nothing and the
      description is exactly the rendered sections joined by newlines. */
  lemma ComposeJoinsSections(d: DescInput)
    ensures Compose(d) == Join("\n", RenderAll(Sections(d)))
  {
    var parts := RenderAll(Sections(d));
    forall s | s in Sections(d) ensures Render(s) != "" {
      match s
      case Screenshots(_) => assert Render(s)[0] == '#';
      case Subtitles(_) => assert Render(s)[0] == '#';
      case BdInfo(_) => assert Render(s)[0] == '#';
      case MediaInfo(_) => assert Render(s)[0] == '#';
      case Signature(_) =>
    }
    NonEmptyKeepsAll(parts);
  }

  lemma {:induction false} NonEmptyKeepsAll(parts: seq<string>)
    requires forall i :: 0 <= i < |parts| ==> parts[i] != ""
    ensures NonEmpty(parts) == parts
  {
    if parts != [] {
      NonEmptyKeepsAll(parts[..|parts| - 1]);
    }
  }

  /** The body of `generate_description`: append the present sections in order, then
      join the non-empty ones with newlines. */
  method ComposeDescription(d: DescInput) returns (desc: string)
    ensures desc == Compose(d)
  {
    var parts: seq<string> := [];
    ghost var sections: seq<Section> := [];
    assert parts == RenderAll(sections);

    if d.images != [] {
      var block := BuildScreenshotsBlock(d.images);
      RenderAllSnoc(sections, Screenshots(d.images));
      parts := parts + [block];
    }
    sections := AddIf(d.images != [], Screenshots(d.images), sections);

    var techInfo := "";
    if d.isDisc == "BDMV" && d.bdSummary.Some? {
      techInfo := d.bdSummary.value;
    }
    assert techInfo == TechInfo(d);

    if d.subtitleLanguages != [] {
      var subLanguages := Join("\n", SubtitleLines(d.subtitleLanguages));
      RenderAllSnoc(sections, Subtitles(d.subtitleLanguages));
      parts := parts + ["## Subtitles\n" + subLanguages + "\n"];
    }
    sections := AddIf(d.subtitleLanguages != [], Subtitles(d.subtitleLanguages), sections);

    if techInfo != "" {
      RenderAllSnoc(sections, BdInfo(techInfo));
      parts := parts + ["## BD Info\n```\n" + techInfo + "\n```\n"];
    }
    sections := AddIf(TechInfo(d) != "", BdInfo(TechInfo(d)), sections);

    if d.mediainfo.Some? {
      var pieces := Split(d.mediainfo.value, MediaInfoSeparator);
      var kept := FilterMediaInfo(pieces, d.trackTypes);
      RenderAllSnoc(sections, MediaInfo(kept));
      parts := parts + ["## MediaInfo\n```\n" + Join(MediaInfoSeparator, kept) + "\n```\n"];
    }
    sections := AddIf(d.mediainfo.Some?, MediaInfo(MediaInfoKept(d)), sections);

    if d.signature != "" {
      RenderAllSnoc(sections, Signature(d.signature));
      parts := parts + [d.signature];
    }
    sections := AddIf(d.signature != "", Signature(d.signature), sections);

    assert parts == RenderAll(Sections(d));
    desc := Join("\n", NonEmpty(parts));
  }
}
