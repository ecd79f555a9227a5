/** The torrent's top-level metainfo dictionary and the two envelope rewrites the
    Nyaa adapter applies to it: the first pass before upload (`edit_torrent`) and
    the second pass once the tracker has assigned an id (`add_tracker_torrent`). */
module Metainfo {

  /** A metainfo value. `Opaque` stands for a bencoded list or dictionary (such as
      `info`) whose contents this component never inspects. */
  datatype Value = Str(s: string) | Num(n: int) | Opaque(id: nat)

  /** A torrent as read by the torrent library: its top-level metainfo dictionary and
      its private flag, kept apart because the library stores it inside `info`. */
  datatype Torrent = Torrent(metainfo: map<string, Value>, isPrivate: bool)

  const AnnounceKey := "announce"
  const CommentKey := "comment"
  const InfoKey := "info"

  /** The only top-level keys the first pass keeps. */
  const AllowedKeys: set<string> :=
    {AnnounceKey, CommentKey, "creation date", "created by", "encoding", InfoKey}

  /** The entries of `m` whose keys are allowed. */
  function AllowedPart(m: map<string, Value>): (r: map<string, Value>)
    ensures r.Keys == m.Keys * AllowedKeys
    ensures forall k :: k in r ==> r[k] == m[k]
  {
    map k | k in m && k in AllowedKeys :: m[k]
  }

  /** The first pass: drop every key outside the allow-list, point `announce` at the
      tracker, clear `comment` and clear the private flag. */
  function Rewrite(t: Torrent, announceUrl: string): (r: Torrent)
    ensures r.metainfo.Keys <= AllowedKeys
    ensures r.metainfo.Keys == (t.metainfo.Keys * AllowedKeys) + {AnnounceKey, CommentKey}
    ensures r.metainfo[AnnounceKey] == Str(announceUrl)
    ensures r.metainfo[CommentKey] == Str("")
    ensures !r.isPrivate
    ensures forall k :: k in r.metainfo && k != AnnounceKey && k != CommentKey ==>
              k in t.metainfo && r.metainfo[k] == t.metainfo[k]
  {
    Torrent(AllowedPart(t.metainfo)[AnnounceKey := Str(announceUrl)][CommentKey := Str("")], false)
  }

  /** The key-dropping loop of the first pass followed by its three assignments. */
  method EditMetainfo(t: Torrent, announceUrl: string) returns (r: Torrent)
    ensures r == Rewrite(t, announceUrl)
  {
    var metainfo := t.metainfo;
    var pending := t.metainfo.Keys;
    while pending != {}
      invariant pending <= t.metainfo.Keys
      invariant metainfo.Keys == pending + (t.metainfo.Keys * AllowedKeys)
      invariant forall k :: k in metainfo ==> metainfo[k] == t.metainfo[k]
      decreases pending
    {
      var key :| key in pending;
      if key !in AllowedKeys {
        metainfo := metainfo - {key};
      }
      pending := pending - {key};
    }
    metainfo := metainfo[AnnounceKey := Str(announceUrl)];
    metainfo := metainfo[CommentKey := Str("")];
    r := Torrent(metainfo, false);
  }

  /** The first pass is idempotent: rewriting a rewritten torrent changes nothing. */
  lemma RewriteIdempotent(t: Torrent, announceUrl: string)
    ensures Rewrite(Rewrite(t, announceUrl), announceUrl) == Rewrite(t, announceUrl)
  {
    var once := Rewrite(t, announceUrl);
    var twice := Rewrite(once, announceUrl);
    assert twice.metainfo.Keys == once.metainfo.Keys;
    assert forall k :: k in twice.metainfo ==> twice.metainfo[k] == once.metainfo[k];
  }

  /** The second pass: overwrite `announce` and `comment`, nothing else. */
  function Patch(t: Torrent, announceUrl: string, comment: string): (r: Torrent)
    ensures r.metainfo.Keys == t.metainfo.Keys + {AnnounceKey, CommentKey}
    ensures r.metainfo[AnnounceKey] == Str(announceUrl)
    ensures r.metainfo[CommentKey] == Str(comment)
    ensures r.isPrivate == t.isPrivate
    ensures forall k :: k in t.metainfo && k != AnnounceKey && k != CommentKey ==>
              r.metainfo[k] == t.metainfo[k]
  {
    Torrent(t.metainfo[AnnounceKey := Str(announceUrl)][CommentKey := Str(comment)], t.isPrivate)
  }

  /** Both passes leave the opaque `info` value, which here excludes the private flag,
      exactly as it was in the base torrent, keep the envelope inside the allow-list and
      clear the private flag. */
  lemma TwoPassesKeepInfo(t: Torrent, announceUrl: string, finalAnnounceUrl: string, comment: string)
    ensures var r := Patch(Rewrite(t, announceUrl), finalAnnounceUrl, comment);
      && (InfoKey in r.metainfo <==> InfoKey in t.metainfo)
      && (InfoKey in t.metainfo ==> r.metainfo[InfoKey] == t.metainfo[InfoKey])
      && r.metainfo.Keys <= AllowedKeys
      && !r.isPrivate
      && r.metainfo[AnnounceKey] == Str(finalAnnounceUrl)
      && r.metainfo[CommentKey] == Str(comment)
  {
  }
}
