/**
 * The library store: the user's playlists and liked songs. Every operation
 * is a pure transform of the two sequences; `PlaylistStore` holds them as
 * the provider's two state cells and replaces them through its methods.
 * The id generator, the clock and the random cover choice are parameters.
 */
module Library {
  import opened Results
  import opened ArrayOps
  import opened Strings
  import opened Tracks

  /** Timestamps are clock readings; `isLiked`, never set by the store, is not modelled. */
  datatype Playlist = Playlist(
    id: string,
    title: string,
    description: string,
    image: string,
    tracks: seq<Track>,
    createdAt: nat,
    updatedAt: nat)

  /** The two errors create and update throw: a blank title and a taken title. */
  datatype LibraryError = TitleRequired | DuplicateName

  /** What the edit dialog passes to `updatePlaylist`. */
  datatype PlaylistUpdates = PlaylistUpdates(title: Option<string>, description: Option<string>)

  const DefaultDescription: string := "Created by you"

  /** The covers a new playlist is given one of. */
  const AlbumCovers: seq<string> := [
    "/images/sherine-album.png",
    "/images/3dabl-draganov.png",
    "/images/hawjidi-album.png",
    "/images/spotlight-artist.png",
    "/images/wtshl-album.png",
    "/images/adidas-comic.png",
    "/images/eminem-curtain-call.png",
    "/images/burning-door.png",
    "/images/slim-shady-death.png",
    "/images/eminem-encore.png"
  ]

  function PlaylistIdIs(id: string): Playlist -> bool {
    (p: Playlist) => p.id == id
  }

  function PlaylistIdIsNot(id: string): Playlist -> bool {
    (p: Playlist) => p.id != id
  }

  /** The test `p => p.title.toLowerCase() === title.toLowerCase()`. */
  function TitleMatches(title: string): Playlist -> bool {
    (p: Playlist) => EqualsIgnoreCase(p.title, title)
  }

  /** The test `p => p.id !== id && p.title.toLowerCase() === title.toLowerCase()`. */
  function OtherWithTitle(id: string, title: string): Playlist -> bool {
    (p: Playlist) => p.id != id && EqualsIgnoreCase(p.title, title)
  }

  // ---------------------------------------------------------------------
  // The library invariant
  // ---------------------------------------------------------------------

  /** Two playlists that may sit in one library: different ids, titles different up to case. */
  predicate Compatible(a: Playlist, b: Playlist) {
    a.id != b.id && !EqualsIgnoreCase(a.title, b.title)
  }

  /** Ids are unique and titles are unique case-insensitively. */
  ghost predicate WellFormed(ps: seq<Playlist>) {
    Pairwise(ps, Compatible)
  }

  /** A transform that keeps every id and title in place keeps the invariant. */
  lemma SameKeysWellFormed(ps: seq<Playlist>, qs: seq<Playlist>)
    requires WellFormed(ps) && |qs| == |ps|
    requires forall i :: 0 <= i < |ps| ==> qs[i].id == ps[i].id && qs[i].title == ps[i].title
    ensures WellFormed(qs)
  {
    forall i, j | 0 <= i < j < |qs| ensures Compatible(qs[i], qs[j]) {
      assert Compatible(ps[i], ps[j]);
    }
  }

  // ---------------------------------------------------------------------
  // createPlaylist
  // ---------------------------------------------------------------------

  /** Some playlist's title equals `title` up to case. */
  ghost predicate TitleTaken(ps: seq<Playlist>, title: string) {
    exists i :: 0 <= i < |ps| && EqualsIgnoreCase(ps[i].title, title)
  }

  /**
   * `createPlaylist(title, description)` with the given fresh id, cover
   * index and clock reading: the new playlist, or the error it throws. The
   * duplicate test compares the title as passed, before trimming.
   */
  function Create(ps: seq<Playlist>, title: string, description: Option<string>, id: string, cover: nat, now: nat)
    : (r: Result<Playlist, LibraryError>)
    requires cover < |AlbumCovers|
    ensures r == Failure(TitleRequired) <==> IsBlank(title)
    ensures r == Failure(DuplicateName) <==> !IsBlank(title) && TitleTaken(ps, title)
    ensures r.Success? ==>
      && r.value.id == id
      && r.value.title == Trim(title) && r.value.title != [] && IsTrimmed(r.value.title)
      && r.value.description == Trim(description.GetOr(DefaultDescription))
      && r.value.image in AlbumCovers
      && r.value.tracks == []
      && r.value.createdAt == r.value.updatedAt == now
  {
    if Trim(title) == [] then Failure(TitleRequired)
    else if Find(ps, TitleMatches(title)).Some? then Failure(DuplicateName)
    else
      Success(Playlist(id, Trim(title), Trim(description.GetOr(DefaultDescription)),
                       AlbumCovers[cover], [], now, now))
  }

  /** The list `createPlaylist` leaves: the new playlist appended on success, the old list on failure. */
  function AfterCreate(ps: seq<Playlist>, r: Result<Playlist, LibraryError>): (qs: seq<Playlist>)
    ensures r.Failure? ==> qs == ps
    ensures r.Success? ==> |qs| == |ps| + 1 && qs[..|ps|] == ps && qs[|ps|] == r.value
  {
    if r.Success? then ps + [r.value] else ps
  }

  /**
   * Creating keeps ids and titles unique when the id is fresh and the title
   * arrives trimmed, as the create dialog passes it.
   */
  lemma CreateWellFormed(ps: seq<Playlist>, title: string, description: Option<string>, id: string, cover: nat, now: nat)
    requires cover < |AlbumCovers|
    ensures WellFormed(ps) && title == Trim(title) && (forall i :: 0 <= i < |ps| ==> ps[i].id != id)
            ==> WellFormed(AfterCreate(ps, Create(ps, title, description, id, cover, now)))
  {
    var r := Create(ps, title, description, id, cover, now);
    if WellFormed(ps) && title == Trim(title) && (forall i :: 0 <= i < |ps| ==> ps[i].id != id) && r.Success? {
      var p := r.value;
      assert p.id == id && p.title == title;
      assert !TitleTaken(ps, title);
      forall i | 0 <= i < |ps| ensures Compatible(ps[i], p) {
        assert !EqualsIgnoreCase(ps[i].title, title);
      }
      AppendWellFormed(ps, p);
    }
  }

  /** Appending a playlist compatible with every existing one keeps the invariant. */
  lemma AppendWellFormed(ps: seq<Playlist>, p: Playlist)
    requires WellFormed(ps)
    requires forall i :: 0 <= i < |ps| ==> Compatible(ps[i], p)
    ensures WellFormed(ps + [p])
  {
    var qs := ps + [p];
    forall i, j | 0 <= i < j < |qs| ensures Compatible(qs[i], qs[j]) {
      if j < |ps| {
        assert qs[i] == ps[i] && qs[j] == ps[j];
      } else {
        assert qs[i] == ps[i] && qs[j] == p;
      }
    }
  }

  /**
   * The duplicate test sees the untrimmed title, so a title that differs
   * from an existing one only by surrounding spaces is accepted and the
   * library ends up with two equal titles.
   */
  lemma CreateUntrimmedDuplicate()
    ensures var ps := [Playlist("p1", "rock", "", AlbumCovers[0], [], 0, 0)];
      var r := Create(ps, " rock", None, "p2", 0, 1);
      && WellFormed(ps)
      && r.Success? && r.value.title == "rock"
      && !WellFormed(AfterCreate(ps, r))
  {
    var ps := [Playlist("p1", "rock", "", AlbumCovers[0], [], 0, 0)];
    TrimLeadingSpace();
    assert !IsBlank(" rock") by {
      assert !IsWhitespace(" rock"[1]);
    }
    assert WellFormed(ps);
    assert !TitleTaken(ps, " rock") by {
      assert |ToLowerCase(ps[0].title)| != |ToLowerCase(" rock")|;
    }
    var r := Create(ps, " rock", None, "p2", 0, 1);
    assert r.Success? && r.value.title == "rock";
    var qs := AfterCreate(ps, r);
    assert qs[0].title == qs[1].title;
    assert !Compatible(qs[0], qs[1]);
  }

  lemma TrimLeadingSpace()
    ensures Trim(" rock") == "rock"
  {
    assert TrimStart("rock") == "rock" by {
      assert !IsWhitespace('r');
    }
    assert TrimStart(" rock") == "rock" by {
      assert IsWhitespace(" rock"[0]);
      assert " rock"[1..] == "rock";
    }
    assert TrimEnd("rock") == "rock" by {
      assert !IsWhitespace('k');
    }
  }

  /** A playlist appended under an id no other playlist has is the one `getPlaylistById` finds. */
  lemma GetAppended(ps: seq<Playlist>, p: Playlist)
    requires forall i :: 0 <= i < |ps| ==> ps[i].id != p.id
    ensures GetById(ps + [p], p.id) == Some(p)
  {
    var qs := ps + [p];
    assert qs[|ps|] == p;
    var r := GetById(qs, p.id);
    assert r.Some?;
    var i :| 0 <= i < |qs| && qs[i] == r.value && r.value.id == p.id;
    if i < |ps| {
      assert qs[i] == ps[i];
    }
  }

  /** A playlist just created is the one `getPlaylistById` finds under its (fresh) id. */
  lemma CreateThenGet(ps: seq<Playlist>, title: string, description: Option<string>, id: string, cover: nat, now: nat)
    requires cover < |AlbumCovers|
    requires forall i :: 0 <= i < |ps| ==> ps[i].id != id
    requires Create(ps, title, description, id, cover, now).Success?
    ensures GetById(AfterCreate(ps, Create(ps, title, description, id, cover, now)), id)
         == Some(Create(ps, title, description, id, cover, now).value)
  {
    var p := Create(ps, title, description, id, cover, now).value;
    GetAppended(ps, p);
  }

  /** Once a trimmed title is created, creating it again in any letter case fails as a duplicate. */
  lemma CreateTwiceIgnoringCase(ps: seq<Playlist>, title: string, again: string, id: string, id2: string, cover: nat, now: nat, later: nat)
    requires cover < |AlbumCovers|
    requires title == Trim(title)
    requires Create(ps, title, None, id, cover, now).Success?
    requires EqualsIgnoreCase(again, title)
    ensures Create(AfterCreate(ps, Create(ps, title, None, id, cover, now)), again, None, id2, cover, later)
         == Failure(DuplicateName)
  {
    var p := Create(ps, title, None, id, cover, now).value;
    var qs := ps + [p];
    EqualsIgnoreCaseBlank(again, title);
    assert qs[|ps|] == p && EqualsIgnoreCase(qs[|ps|].title, again);
  }

  // ---------------------------------------------------------------------
  // updatePlaylist
  // ---------------------------------------------------------------------

  /** `value?.trim() || fallback`: the trimmed value when given and not blank, otherwise the fallback. */
  function TrimmedOr(value: Option<string>, fallback: string): (r: string)
    ensures value.Some? && !IsBlank(value.value) ==> r == Trim(value.value)
    ensures value.None? || IsBlank(value.value) ==> r == fallback
  {
    if value.Some? && Trim(value.value) != [] then Trim(value.value) else fallback
  }

  /** The playlist `p` merged with the updates at time `now`. */
  function Merge(p: Playlist, u: PlaylistUpdates, now: nat): (r: Playlist)
    ensures r.id == p.id && r.image == p.image && r.tracks == p.tracks && r.createdAt == p.createdAt
    ensures r.updatedAt == now
    ensures u.title.Some? && !IsBlank(u.title.value) ==> r.title == Trim(u.title.value)
    ensures u.title.None? || IsBlank(u.title.value) ==> r.title == p.title
    ensures u.description.Some? && !IsBlank(u.description.value) ==> r.description == Trim(u.description.value)
    ensures u.description.None? || IsBlank(u.description.value) ==> r.description == p.description
  {
    p.(title := TrimmedOr(u.title, p.title),
       description := TrimmedOr(u.description, p.description),
       updatedAt := now)
  }

  /** Target `p` would collide: another playlist already has the title it would end up with. */
  function Collides(ps: seq<Playlist>, id: string, u: PlaylistUpdates): Playlist -> bool {
    (p: Playlist) => p.id == id && Find(ps, OtherWithTitle(id, TrimmedOr(u.title, p.title))).Some?
  }

  /**
   * `updatePlaylist(id, updates)`: the new list, or the duplicate-name error
   * thrown from inside the state update, which leaves the list as it was.
   * The error needs a non-empty title in the updates (`&& updates.title`).
   */
  function Update(ps: seq<Playlist>, id: string, u: PlaylistUpdates, now: nat): (r: Result<seq<Playlist>, LibraryError>)
    ensures r.Failure? ==> r.error == DuplicateName
    ensures r.Failure? <==>
      && u.title.Some? && u.title.value != []
      && exists i, j :: 0 <= i < |ps| && 0 <= j < |ps| && ps[i].id == id && ps[j].id != id
                        && EqualsIgnoreCase(ps[j].title, TrimmedOr(u.title, ps[i].title))
    ensures r.Success? ==> |r.value| == |ps|
    ensures r.Success? ==> forall i :: 0 <= i < |ps| && ps[i].id != id ==> r.value[i] == ps[i]
    ensures r.Success? ==> forall i :: 0 <= i < |ps| && ps[i].id == id ==>
      && r.value[i].id == ps[i].id && r.value[i].image == ps[i].image
      && r.value[i].tracks == ps[i].tracks && r.value[i].createdAt == ps[i].createdAt
      && r.value[i].updatedAt == now
      && r.value[i].title == TrimmedOr(u.title, ps[i].title)
      && r.value[i].description == TrimmedOr(u.description, ps[i].description)
  {
    if u.title.Some? && u.title.value != [] && Any(ps, Collides(ps, id, u)) then
      Failure(DuplicateName)
    else
      Success(seq(|ps|, i requires 0 <= i < |ps| => if ps[i].id == id then Merge(ps[i], u, now) else ps[i]))
  }

  /** An id that names no playlist leaves the list unchanged. */
  lemma UpdateUnknownId(ps: seq<Playlist>, id: string, u: PlaylistUpdates, now: nat)
    requires forall i :: 0 <= i < |ps| ==> ps[i].id != id
    ensures Update(ps, id, u, now) == Success(ps)
  {
    var r := Update(ps, id, u, now);
    assert r.Success?;
    assert r.value == ps;
  }

  /** An absent or blank title keeps the old title; an absent or blank description keeps the old description. */
  lemma UpdateBlankKeepsOld(ps: seq<Playlist>, id: string, u: PlaylistUpdates, now: nat, i: nat)
    requires i < |ps| && ps[i].id == id
    requires Update(ps, id, u, now).Success?
    ensures u.title.None? || IsBlank(u.title.value) ==> Update(ps, id, u, now).value[i].title == ps[i].title
    ensures u.description.None? || IsBlank(u.description.value) ==>
              Update(ps, id, u, now).value[i].description == ps[i].description
  {
  }

  /** Updating keeps ids and titles unique: a title that would collide is rejected. */
  lemma UpdateWellFormed(ps: seq<Playlist>, id: string, u: PlaylistUpdates, now: nat)
    requires WellFormed(ps)
    requires Update(ps, id, u, now).Success?
    ensures WellFormed(Update(ps, id, u, now).value)
  {
    var qs := Update(ps, id, u, now).value;
    forall i, j | 0 <= i < j < |qs| ensures Compatible(qs[i], qs[j]) {
      assert Compatible(ps[i], ps[j]);
      if ps[i].id == id && u.title.Some? && !IsBlank(u.title.value) {
        assert ps[j].id != id;
        assert !EqualsIgnoreCase(ps[j].title, TrimmedOr(u.title, ps[i].title));
      } else if ps[j].id == id && u.title.Some? && !IsBlank(u.title.value) {
        assert ps[i].id != id;
        assert !EqualsIgnoreCase(ps[i].title, TrimmedOr(u.title, ps[j].title));
      }
    }
  }

  // ---------------------------------------------------------------------
  // addToPlaylist, removeFromPlaylist
  // ---------------------------------------------------------------------

  /** `addToPlaylist(id, track)` at time `now`. */
  function AddTrack(ps: seq<Playlist>, id: string, track: Track, now: nat): (r: seq<Playlist>)
    ensures |r| == |ps|
    ensures forall i :: 0 <= i < |ps| && ps[i].id != id ==> r[i] == ps[i]
    ensures forall i :: 0 <= i < |ps| && ps[i].id == id ==>
      r[i] == ps[i].(tracks := ps[i].tracks + [track], updatedAt := now)
  {
    seq(|ps|, i requires 0 <= i < |ps| =>
      if ps[i].id == id then ps[i].(tracks := ps[i].tracks + [track], updatedAt := now) else ps[i])
  }

  /** `removeFromPlaylist(id, trackId)` at time `now`. */
  function RemoveTrack(ps: seq<Playlist>, id: string, trackId: string, now: nat): (r: seq<Playlist>)
    ensures |r| == |ps|
    ensures forall i :: 0 <= i < |ps| && ps[i].id != id ==> r[i] == ps[i]
    ensures forall i :: 0 <= i < |ps| && ps[i].id == id ==>
      r[i] == ps[i].(tracks := Filter(ps[i].tracks, TrackIdIsNot(trackId)), updatedAt := now)
  {
    seq(|ps|, i requires 0 <= i < |ps| =>
      if ps[i].id == id then ps[i].(tracks := Filter(ps[i].tracks, TrackIdIsNot(trackId)), updatedAt := now)
      else ps[i])
  }

  /** An unknown id leaves the list unchanged, for add and for remove. */
  lemma AddRemoveUnknownId(ps: seq<Playlist>, id: string, track: Track, trackId: string, now: nat)
    requires forall i :: 0 <= i < |ps| ==> ps[i].id != id
    ensures AddTrack(ps, id, track, now) == ps
    ensures RemoveTrack(ps, id, trackId, now) == ps
  {
  }

  /**
   * Removing drops every copy of the track, keeps every other track, and
   * keeps the others in order: removing from a concatenation is the
   * concatenation of the removals.
   */
  lemma RemoveTrackContents(tracks: seq<Track>, trackId: string)
    ensures forall k :: 0 <= k < |Filter(tracks, TrackIdIsNot(trackId))| ==>
      Filter(tracks, TrackIdIsNot(trackId))[k].id != trackId
    ensures forall k :: 0 <= k < |tracks| && tracks[k].id != trackId ==>
      tracks[k] in Filter(tracks, TrackIdIsNot(trackId))
    ensures forall a, b :: tracks == a + b ==>
      Filter(tracks, TrackIdIsNot(trackId)) == Filter(a, TrackIdIsNot(trackId)) + Filter(b, TrackIdIsNot(trackId))
  {
    forall a, b | tracks == a + b
      ensures Filter(tracks, TrackIdIsNot(trackId)) == Filter(a, TrackIdIsNot(trackId)) + Filter(b, TrackIdIsNot(trackId))
    {
      FilterAppend(a, b, TrackIdIsNot(trackId));
    }
  }

  /** Adding a track and then removing it by id is the same as removing it by id. */
  lemma AddThenRemove(tracks: seq<Track>, track: Track)
    ensures Filter(tracks + [track], TrackIdIsNot(track.id)) == Filter(tracks, TrackIdIsNot(track.id))
  {
    FilterAppend(tracks, [track], TrackIdIsNot(track.id));
    assert Filter([track], TrackIdIsNot(track.id)) == [];
  }

  /** Adding and removing tracks never touches ids or titles, so they keep the invariant. */
  lemma AddRemoveWellFormed(ps: seq<Playlist>, id: string, track: Track, trackId: string, now: nat)
    requires WellFormed(ps)
    ensures WellFormed(AddTrack(ps, id, track, now))
    ensures WellFormed(RemoveTrack(ps, id, trackId, now))
  {
    SameKeysWellFormed(ps, AddTrack(ps, id, track, now));
    SameKeysWellFormed(ps, RemoveTrack(ps, id, trackId, now));
  }

  // ---------------------------------------------------------------------
  // deletePlaylist, getPlaylistById
  // ---------------------------------------------------------------------

  /** `deletePlaylist(id)`: the playlists whose id differs, in order. */
  function Delete(ps: seq<Playlist>, id: string): (r: seq<Playlist>)
    ensures forall i :: 0 <= i < |r| ==> r[i].id != id && r[i] in ps
    ensures forall i :: 0 <= i < |ps| && ps[i].id != id ==> ps[i] in r
  {
    Filter(ps, PlaylistIdIsNot(id))
  }

  /** Deleting keeps the surviving playlists in their order: it distributes over concatenation. */
  lemma DeleteKeepsOrder(a: seq<Playlist>, b: seq<Playlist>, id: string)
    ensures Delete(a + b, id) == Delete(a, id) + Delete(b, id)
  {
    FilterAppend(a, b, PlaylistIdIsNot(id));
  }

  /** Deleting twice is deleting once; deleting an absent id changes nothing. */
  lemma DeleteIdempotent(ps: seq<Playlist>, id: string)
    ensures Delete(Delete(ps, id), id) == Delete(ps, id)
    ensures (forall i :: 0 <= i < |ps| ==> ps[i].id != id) ==> Delete(ps, id) == ps
  {
    FilterIdempotent(ps, PlaylistIdIsNot(id));
    if forall i :: 0 <= i < |ps| ==> ps[i].id != id {
      FilterKeepsAll(ps, PlaylistIdIsNot(id));
    }
  }

  lemma DeleteWellFormed(ps: seq<Playlist>, id: string)
    requires WellFormed(ps)
    ensures WellFormed(Delete(ps, id))
  {
    FilterPairwise(ps, PlaylistIdIsNot(id), Compatible);
  }

  /** `getPlaylistById(id)`: the first playlist with that id, or nothing. */
  function GetById(ps: seq<Playlist>, id: string): (r: Option<Playlist>)
    ensures r.None? <==> forall i :: 0 <= i < |ps| ==> ps[i].id != id
    ensures r.Some? ==> exists i :: 0 <= i < |ps| && ps[i] == r.value && r.value.id == id
                                  && forall j :: 0 <= j < i ==> ps[j].id != id
  {
    Find(ps, PlaylistIdIs(id))
  }

  /** After a delete the id is gone. */
  lemma DeleteThenGet(ps: seq<Playlist>, id: string)
    ensures GetById(Delete(ps, id), id) == None
  {
  }

  // ---------------------------------------------------------------------
  // Liked songs
  // ---------------------------------------------------------------------

  /** `isTrackLiked(trackId)`: some liked track has that id. */
  function IsLiked(liked: seq<Track>, trackId: string): (r: bool)
    ensures r <==> exists k :: 0 <= k < |liked| && liked[k].id == trackId
  {
    Any(liked, TrackIdIs(trackId))
  }

  /** `toggleLikedSong(track)`: every copy removed when liked, appended when not. */
  function ToggleLiked(liked: seq<Track>, track: Track): (r: seq<Track>)
    ensures IsLiked(liked, track.id) ==> r == Filter(liked, TrackIdIsNot(track.id))
    ensures !IsLiked(liked, track.id) ==> r == liked + [track]
  {
    if Any(liked, TrackIdIs(track.id)) then Filter(liked, TrackIdIsNot(track.id)) else liked + [track]
  }

  /** One toggle flips the track's membership and leaves every other id's as it was. */
  lemma ToggleFlips(liked: seq<Track>, track: Track, other: string)
    ensures IsLiked(ToggleLiked(liked, track), track.id) == !IsLiked(liked, track.id)
    ensures other != track.id ==> IsLiked(ToggleLiked(liked, track), other) == IsLiked(liked, other)
  {
    var r := ToggleLiked(liked, track);
    if IsLiked(liked, track.id) {
      if IsLiked(liked, other) && other != track.id {
        var k :| 0 <= k < |liked| && liked[k].id == other;
        assert liked[k] in r;
      }
      if IsLiked(r, other) {
        var k :| 0 <= k < |r| && r[k].id == other;
        assert r[k] in liked;
      }
    } else {
      if IsLiked(liked, other) {
        var k :| 0 <= k < |liked| && liked[k].id == other;
        assert r[k] == liked[k];
      }
      assert r[|liked|] == track;
    }
  }

  /** Toggling twice restores every id's membership, and the exact list when the track was not liked. */
  lemma ToggleTwice(liked: seq<Track>, track: Track, other: string)
    ensures IsLiked(ToggleLiked(ToggleLiked(liked, track), track), other) == IsLiked(liked, other)
    ensures !IsLiked(liked, track.id) ==> ToggleLiked(ToggleLiked(liked, track), track) == liked
  {
    ToggleFlips(liked, track, other);
    ToggleFlips(ToggleLiked(liked, track), track, other);
    if !IsLiked(liked, track.id) {
      FilterKeepsAll(liked, TrackIdIsNot(track.id));
      AddThenRemove(liked, track);
    }
  }

  predicate DifferentIds(a: Track, b: Track) {
    a.id != b.id
  }

  /** Liked songs behave as a set keyed by id: toggling never introduces a second copy of an id. */
  lemma ToggleKeepsIdsUnique(liked: seq<Track>, track: Track)
    requires Pairwise(liked, DifferentIds)
    ensures Pairwise(ToggleLiked(liked, track), DifferentIds)
  {
    if IsLiked(liked, track.id) {
      FilterPairwise(liked, TrackIdIsNot(track.id), DifferentIds);
    } else {
      var r := liked + [track];
      forall i, j | 0 <= i < j < |r| ensures DifferentIds(r[i], r[j]) {
        if j < |liked| {
          assert DifferentIds(liked[i], liked[j]);
        }
      }
    }
  }

  // ---------------------------------------------------------------------
  // Loading from storage
  // ---------------------------------------------------------------------

  /** What local storage yields for one key: nothing, text that does not parse, or a parsed value. */
  datatype Stored<T> = Missing | Unparsable | Parsed(value: T)

  /** The value the mount effect leaves in a cell that holds `current`: unchanged when nothing is stored, empty when parsing fails. */
  function Restore<T>(saved: Stored<seq<T>>, current: seq<T>): (r: seq<T>)
    ensures saved.Missing? ==> r == current
    ensures saved.Unparsable? ==> r == []
    ensures saved.Parsed? ==> r == saved.value
  {
    match saved
    case Missing => current
    case Unparsable => []
    case Parsed(v) => v
  }

  // ---------------------------------------------------------------------
  // The provider
  // ---------------------------------------------------------------------

  /** The provider's two state cells and the operations that replace them. */
  class PlaylistStore {
    var playlists: seq<Playlist>
    var likedSongs: seq<Track>

    constructor ()
      ensures playlists == [] && likedSongs == []
    {
      playlists := [];
      likedSongs := [];
    }

    /** The mount effect: each cell is read back from storage, falling back to empty when its text does not parse. */
    method Load(savedPlaylists: Stored<seq<Playlist>>, savedLikedSongs: Stored<seq<Track>>)
      modifies this
      ensures playlists == Restore(savedPlaylists, old(playlists))
      ensures likedSongs == Restore(savedLikedSongs, old(likedSongs))
    {
      playlists := Restore(savedPlaylists, playlists);
      likedSongs := Restore(savedLikedSongs, likedSongs);
    }

    method CreatePlaylist(title: string, description: Option<string>, freshId: string, cover: nat, now: nat)
      returns (r: Result<Playlist, LibraryError>)
      requires cover < |AlbumCovers|
      modifies this
      ensures r == Create(old(playlists), title, description, freshId, cover, now)
      ensures playlists == AfterCreate(old(playlists), r)
      ensures likedSongs == old(likedSongs)
      ensures WellFormed(old(playlists)) && title == Trim(title)
              && (forall i :: 0 <= i < |old(playlists)| ==> old(playlists)[i].id != freshId)
              ==> WellFormed(playlists)
    {
      var ps := playlists;
      r := Create(ps, title, description, freshId, cover, now);
      playlists := AfterCreate(ps, r);
      CreateWellFormed(ps, title, description, freshId, cover, now);
    }

    method UpdatePlaylist(id: string, updates: PlaylistUpdates, now: nat) returns (r: Result<seq<Playlist>, LibraryError>)
      modifies this
      ensures r == Update(old(playlists), id, updates, now)
      ensures playlists == if r.Success? then r.value else old(playlists)
      ensures likedSongs == old(likedSongs)
      ensures WellFormed(old(playlists)) ==> WellFormed(playlists)
    {
      r := Update(playlists, id, updates, now);
      if r.Success? {
        if WellFormed(playlists) {
          UpdateWellFormed(playlists, id, updates, now);
        }
        playlists := r.value;
      }
    }

    method AddToPlaylist(id: string, track: Track, now: nat)
      modifies this
      ensures playlists == AddTrack(old(playlists), id, track, now)
      ensures likedSongs == old(likedSongs)
      ensures WellFormed(old(playlists)) ==> WellFormed(playlists)
    {
      if WellFormed(playlists) {
        AddRemoveWellFormed(playlists, id, track, "", now);
      }
      playlists := AddTrack(playlists, id, track, now);
    }

    method RemoveFromPlaylist(id: string, trackId: string, now: nat)
      modifies this
      ensures playlists == RemoveTrack(old(playlists), id, trackId, now)
      ensures likedSongs == old(likedSongs)
      ensures WellFormed(old(playlists)) ==> WellFormed(playlists)
    {
      if WellFormed(playlists) {
        AddRemoveWellFormed(playlists, id, Track("", "", "", "", 0.0, "", ""), trackId, now);
      }
      playlists := RemoveTrack(playlists, id, trackId, now);
    }

    method ToggleLikedSong(track: Track)
      modifies this
      ensures likedSongs == ToggleLiked(old(likedSongs), track)
      ensures IsLiked(likedSongs, track.id) == !IsLiked(old(likedSongs), track.id)
      ensures playlists == old(playlists)
    {
      ToggleFlips(likedSongs, track, track.id);
      likedSongs := ToggleLiked(likedSongs, track);
    }

    function IsTrackLiked(trackId: string): (r: bool)
      reads this
      ensures r <==> exists k :: 0 <= k < |likedSongs| && likedSongs[k].id == trackId
    {
      IsLiked(likedSongs, trackId)
    }

    /** Always reports success: nothing inside the state update can throw. */
    method DeletePlaylist(id: string) returns (ok: bool)
      modifies this
      ensures ok
      ensures playlists == Delete(old(playlists), id)
      ensures likedSongs == old(likedSongs)
      ensures WellFormed(old(playlists)) ==> WellFormed(playlists)
    {
      if WellFormed(playlists) {
        DeleteWellFormed(playlists, id);
      }
      playlists := Delete(playlists, id);
      ok := true;
    }

    function GetPlaylistById(id: string): (r: Option<Playlist>)
      reads this
      ensures r.None? <==> forall i :: 0 <= i < |playlists| ==> playlists[i].id != id
      ensures r.Some? ==> r.value in playlists && r.value.id == id
    {
      GetById(playlists, id)
    }

    method SetPlaylists(ps: seq<Playlist>)
      modifies this
      ensures playlists == ps && likedSongs == old(likedSongs)
    {
      playlists := ps;
    }
  }
}
