/**
 * The catalogue models (Users, Artists, Albums, Tracks, Playlists, PlaylistTracks):
 * BaseModel tables plus the derived operations each model adds.
 */
module Catalogue {
  import opened Wrappers
  import opened Sql
  import opened Clause
  import opened Base

  const TrackIdColumn := "track_id"
  const AlbumIdColumn := "album_id"
  const ArtistIdColumn := "artist_id"
  const PlayCountColumn := "play_count"
  const ArtistNameColumn := "artist_name"
  const AlbumTitleColumn := "album_title"
  const AlbumNameColumn := "album_name"
  const CoverImageColumn := "cover_image_url"
  const PlaylistIdColumn := "playlist_id"
  const AddedByColumn := "added_by"
  const AddedAtColumn := "added_at"
  const PositionColumn := "position"

  // ------------------------------------------------------------ extendModel

  /** Which code answers a model method: BaseModel's own, or a model's extension. */
  datatype Impl = BaseMethod(name: string) | Extension(model: string, name: string)

  const BaseMethods: set<string> := {"findMany", "findUnique", "findById", "create", "update",
    "updateById", "delete", "deleteById", "count", "exists", "findManyPaginated"}

  /** extendModel(model, extensions): the bound base methods, then the extensions spread
      over them, so an extension replaces the base method of the same name. */
  function ExtendModel(model: string, extensions: set<string>): (r: map<string, Impl>)
    ensures r.Keys == BaseMethods + extensions
    ensures forall m :: m in extensions ==> r[m] == Extension(model, m)
    ensures forall m :: m in BaseMethods && m !in extensions ==> r[m] == BaseMethod(m)
  {
    (map m | m in BaseMethods :: BaseMethod(m)) + (map m | m in extensions :: Extension(model, m))
  }

  const AlbumsExtensions: set<string> := {"tracks", "artist", "withTracks", "findMany", "findById", "findManyPaginated"}

  lemma AlbumsOverrideBase()
    ensures ExtendModel("Albums", AlbumsExtensions)["findMany"] == Extension("Albums", "findMany")
    ensures ExtendModel("Albums", AlbumsExtensions)["findById"] == Extension("Albums", "findById")
    ensures ExtendModel("Albums", AlbumsExtensions)["count"] == BaseMethod("count")
  {
  }

  // ------------------------------------------------------------ rows and views

  /** `track.play_count` as the sort comparator reads it (NULL counts as 0). */
  function Plays(row: Row): int
  {
    if PlayCountColumn in row && row[PlayCountColumn].Int? then row[PlayCountColumn].n else 0
  }

  /** `x?.field`: NULL when the row is absent. */
  function FieldOf(row: Option<Row>, column: string): Value
  {
    if row.Some? then KeyOf(row.value, column) else Null
  }

  /** `Number(v)` on a stored id: NULL becomes 0. */
  function NumberOf(v: Value): Value
  {
    if v.Null? then Int(0) else v
  }

  /** `{ ...row, name: v }` keeps every other field of `row`. */
  predicate Extends(row: Row, view: Row, added: set<string>)
  {
    view.Keys == row.Keys + added && forall k :: k in row && k !in added ==> view[k] == row[k]
  }

  const TrackExtras: set<string> := {AlbumNameColumn, ArtistIdColumn, ArtistNameColumn, CoverImageColumn}

  /** The columns of playlist_tracks are five different names. */
  lemma EntryColumnsDistinct()
    ensures PlaylistIdColumn != TrackIdColumn && PlaylistIdColumn != AddedByColumn && PlaylistIdColumn != AddedAtColumn
    ensures PlaylistIdColumn != PositionColumn && TrackIdColumn != AddedByColumn && TrackIdColumn != AddedAtColumn
    ensures TrackIdColumn != PositionColumn && AddedByColumn != AddedAtColumn && AddedByColumn != PositionColumn
    ensures AddedAtColumn != PositionColumn
  {
    assert PlaylistIdColumn[0] != TrackIdColumn[0] && PlaylistIdColumn[0] != AddedByColumn[0];
    assert TrackIdColumn[0] != AddedByColumn[0] && TrackIdColumn[0] != PositionColumn[0];
    assert PositionColumn[0] != AddedByColumn[0] && PositionColumn[1] != PlaylistIdColumn[1];
    assert AddedByColumn[6] != AddedAtColumn[6];
  }


  const EntryColumns: set<string> := {PlaylistIdColumn, TrackIdColumn, AddedByColumn, AddedAtColumn, PositionColumn}

  /** One row of playlist_tracks as addTrack writes it. */
  function Entry(playlistId: int, trackId: int, addedBy: int, addedAt: string, position: int): Row
  {
    map[PlaylistIdColumn := Int(playlistId), TrackIdColumn := Int(trackId), AddedByColumn := Int(addedBy),
        AddedAtColumn := Text(addedAt), PositionColumn := Int(position)]
  }

  /** A row with exactly the five columns, holding these values, is that entry. */
  lemma EntryExt(r: Row, playlistId: int, trackId: int, addedBy: int, addedAt: string, position: int)
    requires r.Keys == EntryColumns
    requires r[PlaylistIdColumn] == Int(playlistId) && r[TrackIdColumn] == Int(trackId)
    requires r[AddedByColumn] == Int(addedBy) && r[AddedAtColumn] == Text(addedAt) && r[PositionColumn] == Int(position)
    ensures r == Entry(playlistId, trackId, addedBy, addedAt, position)
  {
    EntryColumnsDistinct();
  }

  function EntryFields(playlistId: int, trackId: int, addedBy: int, addedAt: string, position: int): Fields
  {
    [(PlaylistIdColumn, Int(playlistId)), (TrackIdColumn, Int(trackId)), (AddedByColumn, Int(addedBy)),
     (AddedAtColumn, Text(addedAt)), (PositionColumn, Int(position))]
  }

  /** The rows of one playlist. */
  function EntriesOf(rows: seq<Row>, playlistId: int): seq<Row>
  {
    Filter(rows, [(PlaylistIdColumn, Int(playlistId))])
  }

  /** The playlist_tracks table after addTrack(playlistId, t, ...) for each t of `trackIds` in turn. */
  function AddAll(rows: seq<Row>, playlistId: int, trackIds: seq<int>, addedBy: int, addedAt: string): (r: seq<Row>)
    ensures |r| == |rows| + |trackIds|
  {
    if |trackIds| == 0 then rows
    else
      var before := AddAll(rows, playlistId, trackIds[..|trackIds| - 1], addedBy, addedAt);
      before + [Entry(playlistId, trackIds[|trackIds| - 1], addedBy, addedAt, |EntriesOf(before, playlistId)| + 1)]
  }

  /** Appending one entry of the playlist adds one to its entry count. */
  lemma EntriesOfAppend(rows: seq<Row>, playlistId: int, e: Row)
    requires KeyOf(e, PlaylistIdColumn) == Int(playlistId)
    ensures EntriesOf(rows + [e], playlistId) == EntriesOf(rows, playlistId) + [e]
  {
    var key := [(PlaylistIdColumn, Int(playlistId))];
    FilterAppend(rows, [e], key);
    MatchesKey(e, PlaylistIdColumn, Int(playlistId));
    assert Filter([e], key) == [e];
  }

  lemma {:induction false} AddAllPositions(rows: seq<Row>, playlistId: int, trackIds: seq<int>, addedBy: int, addedAt: string)
    ensures var r := AddAll(rows, playlistId, trackIds, addedBy, addedAt);
      |r| == |rows| + |trackIds| && r[..|rows|] == rows
      && |EntriesOf(r, playlistId)| == |EntriesOf(rows, playlistId)| + |trackIds|
      && forall k :: |rows| <= k < |r| ==>
           r[k] == Entry(playlistId, trackIds[k - |rows|], addedBy, addedAt, |EntriesOf(rows, playlistId)| + k - |rows| + 1)
  {
    if |trackIds| > 0 {
      var init := trackIds[..|trackIds| - 1];
      var before := AddAll(rows, playlistId, init, addedBy, addedAt);
      AddAllPositions(rows, playlistId, init, addedBy, addedAt);
      var e := Entry(playlistId, trackIds[|trackIds| - 1], addedBy, addedAt, |EntriesOf(before, playlistId)| + 1);
      EntriesOfAppend(before, playlistId, e);
      var r := before + [e];
      assert r[..|rows|] == before[..|rows|];
      forall k | |rows| <= k < |r|
        ensures r[k] == Entry(playlistId, trackIds[k - |rows|], addedBy, addedAt, |EntriesOf(rows, playlistId)| + k - |rows| + 1)
      {
        if k < |before| {
          assert r[k] == before[k];
          assert init[k - |rows|] == trackIds[k - |rows|];
        }
      }
    }
  }

  /** n successive adds to an empty playlist are given positions 1..n. */
  lemma AddsToEmptyPlaylist(rows: seq<Row>, playlistId: int, trackIds: seq<int>, addedBy: int, addedAt: string)
    requires EntriesOf(rows, playlistId) == []
    ensures var r := AddAll(rows, playlistId, trackIds, addedBy, addedAt);
      forall k :: |rows| <= k < |r| ==> KeyOf(r[k], PositionColumn) == Int(k - |rows| + 1)
  {
    AddAllPositions(rows, playlistId, trackIds, addedBy, addedAt);
  }

  /** One addTrack appends the entry at the playlist's next position. */
  lemma AddOne(rows: seq<Row>, playlistId: int, trackId: int, addedBy: int, addedAt: string)
    ensures AddAll(rows, playlistId, [trackId], addedBy, addedAt)
            == rows + [Entry(playlistId, trackId, addedBy, addedAt, |EntriesOf(rows, playlistId)| + 1)]
  {
    assert [trackId][..0] == [];
  }

  // ------------------------------------------------------------ play

  /** The tracks table after Tracks.play(trackId): the track with that id has one more play. */
  function Bumped(rows: seq<Row>, trackId: int): (r: seq<Row>)
    ensures |r| == |rows|
  {
    seq(|rows|, i requires 0 <= i < |rows| =>
      if KeyOf(rows[i], TrackIdColumn) == Int(trackId) then rows[i][PlayCountColumn := Int(Plays(rows[i]) + 1)] else rows[i])
  }

  /** Play's UPDATE ... SET play_count = p + 1 WHERE track_id = ?, with p read from the
      one row holding that id, is Bumped. */
  lemma UpdateIsBumped(rows: seq<Row>, cols: set<string>, trackId: int, k: nat, track: Row)
    requires UniqueIn(rows, cols) && TrackIdColumn in cols
    requires k < |rows| && rows[k] == track && KeyOf(track, TrackIdColumn) == Int(trackId)
    ensures UpdateRows(rows, [(TrackIdColumn, Int(trackId))], [(PlayCountColumn, Int(Plays(track) + 1))]) == Bumped(rows, trackId)
  {
    var key := [(TrackIdColumn, Int(trackId))];
    var data := [(PlayCountColumn, Int(Plays(track) + 1))];
    var u := UpdateRows(rows, key, data);
    var b := Bumped(rows, trackId);
    forall i | 0 <= i < |rows| ensures u[i] == b[i] {
      MatchesKey(rows[i], TrackIdColumn, Int(trackId));
      if KeyOf(rows[i], TrackIdColumn) == Int(trackId) {
        UniqueIndex(rows, cols, TrackIdColumn, i, k);
        forall x | x in KeySet(data) ensures x == PlayCountColumn {
          var j :| 0 <= j < |data| && data[j].0 == x;
        }
        assert Assign(rows[i], data) == rows[i][PlayCountColumn := Int(Plays(rows[i]) + 1)];
      }
    }
  }

  /** Bumped raises exactly the named track's play count by one. */
  lemma BumpedCounts(rows: seq<Row>, trackId: int)
    ensures forall i :: 0 <= i < |rows| ==>
      Plays(Bumped(rows, trackId)[i]) == if KeyOf(rows[i], TrackIdColumn) == Int(trackId) then Plays(rows[i]) + 1 else Plays(rows[i])
    ensures forall i :: 0 <= i < |rows| && KeyOf(rows[i], TrackIdColumn) != Int(trackId) ==> Bumped(rows, trackId)[i] == rows[i]
    ensures forall i, c :: 0 <= i < |rows| && c in rows[i] && c != PlayCountColumn ==> Bumped(rows, trackId)[i][c] == rows[i][c]
  {
  }

  // ------------------------------------------------------------ popular

  /** `slice(0, limit)`: how many elements survive (a negative end counts from the back). */
  function SliceEnd(n: nat, limit: int): (k: nat)
    ensures k <= n
  {
    if limit >= 0 then (if limit < n then limit else n)
    else if n + limit > 0 then n + limit else 0
  }

  predicate ByPlaysDescending(s: seq<Row>)
  {
    forall i, j :: 0 <= i < j < |s| ==> Plays(s[i]) >= Plays(s[j])
  }

  method Swap(a: array<Row>, i: nat, j: nat)
    requires i < a.Length && j < a.Length
    modifies a
    ensures a[..] == old(a[..])[i := old(a[j])][j := old(a[i])]
    ensures multiset(a[..]) == multiset(old(a[..]))
  {
    a[i], a[j] := a[j], a[i];
  }

  /** `s[..n]` is in descending play order. */
  predicate DescendingUpTo(s: seq<Row>, n: nat)
    requires n <= |s|
  {
    forall p, q :: 0 <= p < q < n ==> Plays(s[p]) >= Plays(s[q])
  }

  /** While the new element at `j` moves left, `s[..n+1]` is descending once it is left out,
      and its neighbours are in order. */
  predicate DescendingBut(s: seq<Row>, n: nat, j: nat)
    requires j <= n < |s|
  {
    (forall p, q :: 0 <= p < q <= n && p != j && q != j ==> Plays(s[p]) >= Plays(s[q]))
    && (forall q :: j < q <= n ==> Plays(s[j]) >= Plays(s[q]))
  }

  /** One step of the inner loop: swapping the new element with a smaller left neighbour. */
  lemma SwapLeft(s: seq<Row>, n: nat, j: nat)
    requires 0 < j <= n < |s| && DescendingBut(s, n, j) && Plays(s[j - 1]) < Plays(s[j])
    ensures DescendingBut(s[j - 1 := s[j]][j := s[j - 1]], n, j - 1)
  {
  }

  /** The inner loop ends with the new element in place. */
  lemma Settled(s: seq<Row>, n: nat, j: nat)
    requires j <= n < |s| && DescendingBut(s, n, j)
    requires j > 0 ==> Plays(s[j - 1]) >= Plays(s[j])
    ensures DescendingUpTo(s, n + 1)
  {
  }

  /** `tracks.sort((a, b) => b.play_count - a.play_count)`, in place. */
  method SortByPlays(a: array<Row>)
    modifies a
    ensures ByPlaysDescending(a[..])
    ensures multiset(a[..]) == multiset(old(a[..]))
  {
    var i := 0;
    while i < a.Length
      invariant 0 <= i <= a.Length
      invariant DescendingUpTo(a[..], i)
      invariant multiset(a[..]) == multiset(old(a[..]))
    {
      var j := i;
      while j > 0 && Plays(a[j - 1]) < Plays(a[j])
        invariant 0 <= j <= i
        invariant DescendingBut(a[..], i, j)
        invariant multiset(a[..]) == multiset(old(a[..]))
      {
        SwapLeft(a[..], i, j);
        Swap(a, j - 1, j);
        j := j - 1;
      }
      Settled(a[..], i, j);
      i := i + 1;
    }
  }

  /** `rows` sorted by play count, highest first, in a fresh array as `Array.sort` does. */
  method SortedByPlays(rows: seq<Row>) returns (sorted: seq<Row>)
    ensures ByPlaysDescending(sorted)
    ensures multiset(sorted) == multiset(rows)
  {
    var a := new Row[|rows|](i requires 0 <= i < |rows| => rows[i]);
    assert a[..] == rows;
    SortByPlays(a);
    sorted := a[..];
  }

  /** The ranking half of Tracks.popular: sort by play count, highest first, then
      `slice(0, limit)`. */
  method TopByPlays(rows: seq<Row>, limit: int) returns (top: seq<Row>)
    ensures |top| == SliceEnd(|rows|, limit)
    ensures ByPlaysDescending(top)
    ensures multiset(top) <= multiset(rows)
    ensures |top| > 0 ==> forall x :: x in multiset(rows) - multiset(top) ==> Plays(x) <= Plays(top[|top| - 1])
  {
    var sorted := SortedByPlays(rows);
    var n := SliceEnd(|rows|, limit);
    assert |sorted| == |rows| by {
      assert |multiset(sorted)| == |multiset(rows)|;
    }
    PrefixOmits(rows, sorted, n);
    top := sorted[..n];
  }

  /** A prefix of a descending arrangement of `rows` is descending, is drawn from `rows`,
      and what it leaves out is no larger than its last element. */
  lemma PrefixOmits(rows: seq<Row>, sorted: seq<Row>, k: nat)
    requires k <= |sorted| && ByPlaysDescending(sorted) && multiset(sorted) == multiset(rows)
    ensures ByPlaysDescending(sorted[..k])
    ensures multiset(sorted[..k]) <= multiset(rows)
    ensures k > 0 ==> forall x :: x in multiset(rows) - multiset(sorted[..k]) ==> Plays(x) <= Plays(sorted[..k][k - 1])
  {
    assert sorted == sorted[..k] + sorted[k..];
    assert multiset(sorted) - multiset(sorted[..k]) == multiset(sorted[k..]);
    if k > 0 {
      forall x | x in multiset(sorted[k..]) ensures Plays(x) <= Plays(sorted[k - 1]) {
        var m :| 0 <= m < |sorted[k..]| && sorted[k..][m] == x;
        assert sorted[k + m] == x;
      }
    }
  }

  // ------------------------------------------------------------ the tables

  /** Tracks.play either updates the track or throws "Track not found". */
  datatype PlayResult = Played | TrackNotFound

  /** `{ ...artist, albums }` of Artists.fullDiscography. */
  datatype Discography = Discography(artist: Row, albums: seq<Row>)

  /** A table's primary key name, its columns and its UNIQUE columns. */
  datatype TableShape = TableShape(primaryKey: string, columns: set<string>, unique: set<string>, defaults: map<string, Value>)

  function ShapeOf(t: BaseModel): TableShape
  {
    TableShape(t.primaryKey, t.columns, t.uniqueColumns, t.defaults)
  }

  /** The DDL of config/database.ts as the models declare it. `DEFAULT FALSE` is stored
      as 0; `DEFAULT CURRENT_TIMESTAMP` is not a constant and is not listed. */
  const ArtistsShape := TableShape(ArtistIdColumn,
    {ArtistIdColumn, ArtistNameColumn, "bio", "profile_image_url", "created_at"}, {}, map[])
  const AlbumsShape := TableShape(AlbumIdColumn,
    {AlbumIdColumn, ArtistIdColumn, AlbumTitleColumn, "release_year", CoverImageColumn, "created_at"}, {}, map[])
  const TracksShape := TableShape(TrackIdColumn,
    {TrackIdColumn, AlbumIdColumn, "track_title", "duration_ms", "explicit", PlayCountColumn, "created_at"}, {},
    map["explicit" := Int(0), PlayCountColumn := Int(0)])
  /** PlaylistTracksModel is declared with the empty primary key name. */
  const PlaylistTracksShape := TableShape("",
    {PlaylistIdColumn, TrackIdColumn, AddedByColumn, AddedAtColumn, PositionColumn}, {}, map[])

  class Library {
    const artists: BaseModel
    const albums: BaseModel
    const tracks: BaseModel
    const playlistTracks: BaseModel

    /** The shapes of the four tables, in the order artists, albums, tracks, playlist_tracks. */
    function Shapes(): seq<TableShape>
    {
      [ShapeOf(artists), ShapeOf(albums), ShapeOf(tracks), ShapeOf(playlistTracks)]
    }

    /** The schema the catalogue relies on: the tables have the keys and columns of the DDL. */
    predicate Schema()
    {
      Shapes() == [ArtistsShape, AlbumsShape, TracksShape, PlaylistTracksShape]
    }

    constructor (artists: BaseModel, albums: BaseModel, tracks: BaseModel, playlistTracks: BaseModel)
      ensures this.artists == artists && this.albums == albums
      ensures this.tracks == tracks && this.playlistTracks == playlistTracks
    {
      this.artists := artists;
      this.albums := albums;
      this.tracks := tracks;
      this.playlistTracks := playlistTracks;
    }

    /** ArtistsModel.findById(id) */
    function ArtistById(id: Value): (r: Option<Row>)
      requires Schema()
      reads this, artists, albums, tracks, playlistTracks
      ensures r.Some? ==> r.value in artists.rows && KeyOf(r.value, ArtistIdColumn) == id
      ensures r.None? <==> !AnyMatch(artists.rows, [(ArtistIdColumn, id)])
      ensures r.Some? ==> exists i :: 0 <= i < |artists.rows| && artists.rows[i] == r.value
                                      && forall j :: 0 <= j < i ==> !SqlEq(KeyOf(artists.rows[j], ArtistIdColumn), id)
    {
      forall x { MatchesKey(x, ArtistIdColumn, id); }
      var found := artists.FindById(id);
      if found.value.Some? then MatchesKey(found.value.value, ArtistIdColumn, id); found.value
      else found.value
    }

    /** Tracks.album(track_id): the album of the track with that id. */
    function TrackAlbum(trackId: Value): (r: Option<Row>)
      requires Schema()
      reads this, artists, albums, tracks, playlistTracks
      ensures r.Some? ==> r.value in albums.rows
      ensures r.Some? ==> exists t :: t in tracks.rows && KeyOf(t, TrackIdColumn) == trackId && KeyOf(r.value, AlbumIdColumn) == KeyOf(t, AlbumIdColumn)
      ensures !AnyMatch(tracks.rows, [(TrackIdColumn, trackId)]) ==> r.None?
      ensures AnyMatch(tracks.rows, [(TrackIdColumn, trackId)])
        && (forall t :: t in tracks.rows && SqlEq(KeyOf(t, TrackIdColumn), trackId) ==>
              AnyMatch(albums.rows, [(AlbumIdColumn, KeyOf(t, AlbumIdColumn))]))
        ==> r.Some?
    {
      tracks.KnownKey(TrackIdColumn, trackId);
      var track := tracks.FindUnique([(TrackIdColumn, trackId)]).value;
      if track.None? then None
      else
        var t := track.value;
        MatchesKey(t, TrackIdColumn, trackId);
        albums.KnownKey(AlbumIdColumn, KeyOf(t, AlbumIdColumn));
        var album := albums.FindUnique([(AlbumIdColumn, KeyOf(t, AlbumIdColumn))]).value;
        if album.Some? then MatchesKey(album.value, AlbumIdColumn, KeyOf(t, AlbumIdColumn)); album
        else album
    }

    /** A track with its album's title, artist id, artist name and cover (Tracks.findById,
        Tracks.findMany, Tracks.popular): the track's own fields are kept. */
    function TrackView(track: Row): (r: Row)
      requires Schema()
      reads this, artists, albums, tracks, playlistTracks
      ensures Extends(track, r, TrackExtras)
      ensures Plays(r) == Plays(track)
      ensures var album := TrackAlbum(KeyOf(track, TrackIdColumn));
        r[AlbumNameColumn] == FieldOf(album, AlbumTitleColumn) && r[ArtistIdColumn] == FieldOf(album, ArtistIdColumn)
        && r[CoverImageColumn] == FieldOf(album, CoverImageColumn)
        && r[ArtistNameColumn] == (if album.Some? then FieldOf(ArtistById(KeyOf(album.value, ArtistIdColumn)), ArtistNameColumn) else Null)
    {
      var album := TrackAlbum(KeyOf(track, TrackIdColumn));
      var artist := if album.Some? then ArtistById(KeyOf(album.value, ArtistIdColumn)) else None;
      track[AlbumNameColumn := FieldOf(album, AlbumTitleColumn)]
           [ArtistIdColumn := FieldOf(album, ArtistIdColumn)]
           [ArtistNameColumn := FieldOf(artist, ArtistNameColumn)]
           [CoverImageColumn := FieldOf(album, CoverImageColumn)]
    }

    /** Tracks.findById(id) */
    function TrackById(id: Value): (r: Option<Row>)
      requires Schema()
      reads this, artists, albums, tracks, playlistTracks
      ensures r.None? <==> !AnyMatch(tracks.rows, [(TrackIdColumn, id)])
      ensures r.Some? ==> exists t :: t in tracks.rows && KeyOf(t, TrackIdColumn) == id && r.value == TrackView(t)
    {
      var found := tracks.FindById(id).value;
      if found.None? then None
      else
        MatchesKey(found.value, TrackIdColumn, id);
        Some(TrackView(found.value))
    }

    /** `Number(pt.track_id)` looked up with Tracks.findById. */
    function ResolveEntry(entry: Row): (r: Option<Row>)
      requires Schema()
      reads this, artists, albums, tracks, playlistTracks
    {
      TrackById(NumberOf(KeyOf(entry, TrackIdColumn)))
    }

    /** Resolve playlist rows to tracks in row order, dropping ids with no track. */
    function ResolveTracks(entries: seq<Row>): (r: seq<Row>)
      requires Schema()
      reads this, artists, albums, tracks, playlistTracks
      ensures |r| <= |entries|
    {
      if |entries| == 0 then []
      else
        var head := ResolveEntry(entries[0]);
        if head.Some? then [head.value] + ResolveTracks(entries[1..]) else ResolveTracks(entries[1..])
    }

    /** Resolving one row gives its track, or nothing when the id has no track. */
    lemma ResolveOne(entry: Row)
      requires Schema()
      ensures ResolveTracks([entry]) == if ResolveEntry(entry).Some? then [ResolveEntry(entry).value] else []
    {
      assert [entry][1..] == [];
    }

    /** Resolving keeps row order: the rows of `a` resolve before those of `b`. */
    lemma {:induction false} ResolveAppend(a: seq<Row>, b: seq<Row>)
      requires Schema()
      ensures ResolveTracks(a + b) == ResolveTracks(a) + ResolveTracks(b)
    {
      if |a| > 0 {
        assert (a + b)[0] == a[0];
        assert (a + b)[1..] == a[1..] + b;
        ResolveAppend(a[1..], b);
      } else {
        assert a + b == b;
      }
    }

    /** Every resolved track is the view of a stored track. */
    lemma {:induction false} ResolvedAreTracks(entries: seq<Row>)
      requires Schema()
      ensures forall x :: x in ResolveTracks(entries) ==> exists t :: t in tracks.rows && x == TrackView(t)
    {
      if |entries| > 0 {
        ResolvedAreTracks(entries[1..]);
      }
    }

    /** When every id resolves, nothing is dropped and row order is kept. */
    lemma {:induction false} ResolveKeepsAll(entries: seq<Row>)
      requires Schema()
      requires forall i :: 0 <= i < |entries| ==> ResolveEntry(entries[i]).Some?
      ensures |ResolveTracks(entries)| == |entries|
      ensures forall i :: 0 <= i < |entries| ==> ResolveTracks(entries)[i] == ResolveEntry(entries[i]).value
    {
      if |entries| > 0 {
        assert forall i :: 1 <= i < |entries| ==> entries[1..][i - 1] == entries[i];
        ResolveKeepsAll(entries[1..]);
      }
    }

    /** A row whose id has no track is dropped: the result is strictly shorter. */
    lemma {:induction false} ResolveDropsMissing(entries: seq<Row>, k: nat)
      requires Schema() && k < |entries| && ResolveEntry(entries[k]).None?
      ensures |ResolveTracks(entries)| < |entries|
    {
      var rest := ResolveTracks(entries[1..]);
      assert |ResolveTracks(entries)| <= |rest| + 1;
      if k == 0 {
        assert ResolveTracks(entries) == rest;
      } else {
        assert entries[1..][k - 1] == entries[k];
        ResolveDropsMissing(entries[1..], k - 1);
      }
    }

    /** Playlists.tracks(playlist_id) */
    function PlaylistTracks(playlistId: int): (r: seq<Row>)
      requires Schema()
      reads this, artists, albums, tracks, playlistTracks
      ensures r == ResolveTracks(EntriesOf(playlistTracks.rows, playlistId))
      ensures |r| <= |EntriesOf(playlistTracks.rows, playlistId)|
      ensures forall x :: x in r ==> exists t :: t in tracks.rows && x == TrackView(t)
    {
      playlistTracks.KnownKey(PlaylistIdColumn, Int(playlistId));
      ResolvedAreTracks(playlistTracks.FindMany([(PlaylistIdColumn, Int(playlistId))]).value);
      ResolveTracks(playlistTracks.FindMany([(PlaylistIdColumn, Int(playlistId))]).value)
    }

    /** An album with its artist's name. */
    function AlbumView(album: Row): (r: Row)
      requires Schema()
      reads this, artists, albums, tracks, playlistTracks
      ensures Extends(album, r, {ArtistNameColumn})
      ensures r[ArtistNameColumn] == FieldOf(ArtistById(KeyOf(album, ArtistIdColumn)), ArtistNameColumn)
    {
      album[ArtistNameColumn := FieldOf(ArtistById(KeyOf(album, ArtistIdColumn)), ArtistNameColumn)]
    }

    /** Albums.findById(id) */
    function AlbumById(id: Value): (r: Option<Row>)
      requires Schema()
      reads this, artists, albums, tracks, playlistTracks
      ensures r.None? <==> !AnyMatch(albums.rows, [(AlbumIdColumn, id)])
      ensures r.Some? ==> exists a :: a in albums.rows && KeyOf(a, AlbumIdColumn) == id && r.value == AlbumView(a)
    {
      var found := albums.FindById(id).value;
      if found.None? then None
      else
        MatchesKey(found.value, AlbumIdColumn, id);
        Some(AlbumView(found.value))
    }

    /** Albums.artist(albumId): null when the album is missing. */
    function AlbumArtist(albumId: int): (r: Option<Row>)
      requires Schema()
      reads this, artists, albums, tracks, playlistTracks
      ensures !AnyMatch(albums.rows, [(AlbumIdColumn, Int(albumId))]) ==> r.None?
      ensures AnyMatch(albums.rows, [(AlbumIdColumn, Int(albumId))])
        && (forall a :: a in albums.rows && SqlEq(KeyOf(a, AlbumIdColumn), Int(albumId)) ==>
              AnyMatch(artists.rows, [(ArtistIdColumn, KeyOf(a, ArtistIdColumn))]))
        ==> r.Some?
      ensures r.Some? ==> (r.value in artists.rows
        && exists a :: a in albums.rows && KeyOf(a, AlbumIdColumn) == Int(albumId) && KeyOf(r.value, ArtistIdColumn) == KeyOf(a, ArtistIdColumn))
    {
      var found := albums.FindById(Int(albumId)).value;
      if found.None? then None
      else
        MatchesKey(found.value, AlbumIdColumn, Int(albumId));
        ArtistById(KeyOf(found.value, ArtistIdColumn))
    }

    /** Artists.albums(artistId): the artist's albums, each with the artist's name. */
    function ArtistAlbums(artistId: int): (r: seq<Row>)
      requires Schema()
      reads this, artists, albums, tracks, playlistTracks
      ensures var own := Filter(albums.rows, [(ArtistIdColumn, Int(artistId))]);
        |r| == |own|
        && forall i :: 0 <= i < |r| ==>
             Extends(own[i], r[i], {ArtistNameColumn}) && KeyOf(r[i], ArtistIdColumn) == Int(artistId)
             && r[i][ArtistNameColumn] == FieldOf(ArtistById(Int(artistId)), ArtistNameColumn)
    {
      albums.KnownKey(ArtistIdColumn, Int(artistId));
      var own := albums.FindMany([(ArtistIdColumn, Int(artistId))]).value;
      var name := FieldOf(ArtistById(Int(artistId)), ArtistNameColumn);
      assert forall i :: 0 <= i < |own| ==> own[i] in own;
      forall i | 0 <= i < |own| ensures KeyOf(own[i], ArtistIdColumn) == Int(artistId) {
        assert own[i] in own;
        MatchesKey(own[i], ArtistIdColumn, Int(artistId));
      }
      seq(|own|, i requires 0 <= i < |own| => own[i][ArtistNameColumn := name])
    }

    /** Artists.fullDiscography(artist_id): the artist with its albums, or null. */
    function FullDiscography(artistId: int): (r: Option<Discography>)
      requires Schema()
      reads this, artists, albums, tracks, playlistTracks
      ensures r.None? <==> !AnyMatch(artists.rows, [(ArtistIdColumn, Int(artistId))])
      ensures r.Some? ==> r.value.artist in artists.rows && KeyOf(r.value.artist, ArtistIdColumn) == Int(artistId)
      ensures r.Some? ==> r.value.albums == ArtistAlbums(artistId)
    {
      artists.KnownKey(ArtistIdColumn, Int(artistId));
      var artist := artists.FindUnique([(ArtistIdColumn, Int(artistId))]).value;
      if artist.None? then None
      else
        MatchesKey(artist.value, ArtistIdColumn, Int(artistId));
        Some(Discography(artist.value, ArtistAlbums(artistId)))
    }

    /** The enrichment `map` of Tracks.popular over the ranked rows. */
    function TrackViews(s: seq<Row>): (r: seq<Row>)
      requires Schema()
      reads this, artists, albums, tracks, playlistTracks
      ensures |r| == |s|
      ensures forall i :: 0 <= i < |s| ==> r[i] == TrackView(s[i])
    {
      if |s| == 0 then [] else [TrackView(s[0])] + TrackViews(s[1..])
    }

    /** Tracks.popular(limit): every track ranked by play count, the first `limit`
        kept, each with its album and artist. `top` names the ranked rows. */
    method Popular(limit: int) returns (r: seq<Row>, ghost top: seq<Row>)
      requires Schema()
      ensures |r| == |top| == SliceEnd(|tracks.rows|, limit)
      ensures limit >= 0 ==> |r| <= limit
      ensures forall i :: 0 <= i < |r| ==> r[i] == TrackView(top[i])
      ensures ByPlaysDescending(r)
      ensures multiset(top) <= multiset(tracks.rows)
      ensures |top| > 0 ==> forall x :: x in multiset(tracks.rows) - multiset(top) ==> Plays(x) <= Plays(r[|r| - 1])
    {
      var all := tracks.FindMany([]).value;
      var ranked := TopByPlays(all, limit);
      r := TrackViews(ranked);
      top := ranked;
    }

    /** A track inserted without a play count starts with none: the column's DEFAULT 0. */
    lemma NewTrackPlays(data: Fields, id: nat)
      requires Schema() && DistinctKeys(data) && tracks.Known(data) && tracks.primaryKey !in KeySet(data)
      requires PlayCountColumn !in KeySet(data)
      ensures Plays(tracks.NewRow(data, id)) == 0
      ensures tracks.NewRow(data, id)[PlayCountColumn] == Int(0)
    {
      assert ShapeOf(tracks) == TracksShape;
    }

    /** Tracks.play(track_id): find the track, then UPDATE its play_count to one more. */
    method Play(trackId: int) returns (r: PlayResult)
      requires Schema() && tracks.Valid()
      modifies tracks
      ensures tracks.Valid()
      ensures r == TrackNotFound <==> !AnyMatch(old(tracks.rows), [(TrackIdColumn, Int(trackId))])
      ensures r == TrackNotFound ==> tracks.rows == old(tracks.rows)
      ensures r == Played ==> tracks.rows == Bumped(old(tracks.rows), trackId)
      ensures tracks.lastRowId == old(tracks.lastRowId)
    {
      var key := [(TrackIdColumn, Int(trackId))];
      tracks.KnownKey(TrackIdColumn, Int(trackId));
      var found := tracks.FindUnique(key).value;
      if found.None? {
        return TrackNotFound;
      }
      var track := found.value;
      var data := [(PlayCountColumn, Int(Plays(track) + 1))];
      PlayUpdateAllowed(trackId, track);
      var u := tracks.Update(key, data);
      r := Played;
    }

    /** The UPDATE Play issues is well formed, keeps the keys unique and is Bumped. */
    lemma PlayUpdateAllowed(trackId: int, track: Row)
      requires Schema() && tracks.Valid() && tracks.FindUnique([(TrackIdColumn, Int(trackId))]) == Ok(Some(track))
      ensures var data := [(PlayCountColumn, Int(Plays(track) + 1))];
        tracks.primaryKey !in KeySet(data) && tracks.Known(data)
        && UpdateRows(tracks.rows, [(TrackIdColumn, Int(trackId))], data) == Bumped(tracks.rows, trackId)
        && UniqueIn(Bumped(tracks.rows, trackId), tracks.KeyColumns())
    {
      var key := [(TrackIdColumn, Int(trackId))];
      var data := [(PlayCountColumn, Int(Plays(track) + 1))];
      forall x | x in KeySet(data) ensures x == PlayCountColumn {
        var j :| 0 <= j < |data| && data[j].0 == x;
      }
      var k :| 0 <= k < |tracks.rows| && tracks.rows[k] == track && Matches(tracks.rows[k], key);
      MatchesKey(track, TrackIdColumn, Int(trackId));
      UpdateIsBumped(tracks.rows, tracks.KeyColumns(), trackId, k, track);
      UpdateKeepsUnique(tracks.rows, key, data, tracks.KeyColumns());
    }

    /** `findMany({ playlist_id })` of addTrack: the rows of that playlist, in scan order. */
    method Entries(playlistId: int) returns (existing: seq<Row>)
      requires Schema()
      ensures existing == EntriesOf(playlistTracks.rows, playlistId)
    {
      playlistTracks.KnownKey(PlaylistIdColumn, Int(playlistId));
      existing := playlistTracks.FindMany([(PlaylistIdColumn, Int(playlistId))]).value;
    }

    /** The INSERT addTrack issues is well formed and accepted: playlist_tracks has no key
        column a new entry could clash with. */
    lemma EntryInsertable(playlistId: int, trackId: int, addedBy: int, addedAt: string, position: int)
      requires Schema()
      ensures var d := EntryFields(playlistId, trackId, addedBy, addedAt, position);
        DistinctKeys(d) && playlistTracks.primaryKey !in KeySet(d) && playlistTracks.Insertable(d)
    {
      var d := EntryFields(playlistId, trackId, addedBy, addedAt, position);
      forall x | x in KeySet(d) ensures x in playlistTracks.columns {
        var j :| 0 <= j < |d| && d[j].0 == x;
      }
    }

    /** The row that INSERT adds is the entry its fields describe. */
    lemma EntryRow(playlistId: int, trackId: int, addedBy: int, addedAt: string, position: int, id: nat)
      requires Schema()
      requires var d := EntryFields(playlistId, trackId, addedBy, addedAt, position);
        DistinctKeys(d) && playlistTracks.Known(d) && playlistTracks.primaryKey !in KeySet(d)
      ensures playlistTracks.NewRow(EntryFields(playlistId, trackId, addedBy, addedAt, position), id)
              == Entry(playlistId, trackId, addedBy, addedAt, position)
    {
      var d := EntryFields(playlistId, trackId, addedBy, addedAt, position);
      var row := playlistTracks.NewRow(d, id);
      assert d[0].0 == PlaylistIdColumn && d[1].0 == TrackIdColumn && d[2].0 == AddedByColumn;
      assert d[3].0 == AddedAtColumn && d[4].0 == PositionColumn;
      EntryExt(row, playlistId, trackId, addedBy, addedAt, position);
    }

    /** Playlists.addTrack as written: count the playlist's rows, then create the entry
        at the next position. The row is inserted, but create then runs findById on the
        empty primary key name, so the call throws after the insert. */
    method AddTrackAsWritten(playlistId: int, trackId: int, addedBy: int, addedAt: string) returns (r: Db<Option<Row>>)
      requires Schema() && playlistTracks.Valid()
      modifies playlistTracks
      ensures playlistTracks.Valid()
      ensures playlistTracks.rows == old(playlistTracks.rows)
        + [Entry(playlistId, trackId, addedBy, addedAt, |EntriesOf(old(playlistTracks.rows), playlistId)| + 1)]
      ensures r == Fail(SyntaxError)
    {
      var existing := Entries(playlistId);
      var position := |existing| + 1;
      var data := EntryFields(playlistId, trackId, addedBy, addedAt, position);
      EntryInsertable(playlistId, trackId, addedBy, addedAt, position);
      r := playlistTracks.Create(data);
      EntryRow(playlistId, trackId, addedBy, addedAt, position, playlistTracks.lastRowId);
    }

    /** Playlists.addTrack with the insert's own row as the result: the entry is appended
        at position (rows already in the playlist) + 1 and returned. */
    method AddTrack(playlistId: int, trackId: int, addedBy: int, addedAt: string) returns (r: Db<Row>)
      requires Schema() && playlistTracks.Valid()
      modifies playlistTracks
      ensures playlistTracks.Valid()
      ensures playlistTracks.rows == old(playlistTracks.rows)
        + [Entry(playlistId, trackId, addedBy, addedAt, |EntriesOf(old(playlistTracks.rows), playlistId)| + 1)]
      ensures r == Ok(Entry(playlistId, trackId, addedBy, addedAt, |EntriesOf(old(playlistTracks.rows), playlistId)| + 1))
    {
      var existing := Entries(playlistId);
      var position := |existing| + 1;
      var data := EntryFields(playlistId, trackId, addedBy, addedAt, position);
      EntryInsertable(playlistId, trackId, addedBy, addedAt, position);
      r := playlistTracks.Insert(data);
      EntryRow(playlistId, trackId, addedBy, addedAt, position, playlistTracks.lastRowId);
    }
  }
}
