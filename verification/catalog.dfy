/** The server's playlist store: one document per playlist, keyed by its unique name, each
    holding an ordered list of embedded song records; and the object store beside it, seen
    only through the puts and deletes the routes issue. */
module Catalog {
  import opened Records
  import opened Decimal
  import opened FileNames
  import opened UriComponent

  /** The playlist uploads go to when the request names none. */
  const DefaultPlaylist := "default"

  /** An object-store request, keyed by the object's name. */
  datatype BlobEffect = Put(key: string) | Delete(key: string)

  /** Why `POST /api/upload` answered 500: no file in the request, the object-store write
      failed, or the document update failed after the object was written. */
  datatype UploadFailure = MissingFile | BlobWriteFailed | RecordWriteFailed

  datatype UploadReply = Uploaded(song: Song) | UploadFailed(failure: UploadFailure)

  /** The body of `GET /api/playlists`: every stored playlist under its own name, plus an
      empty `default` when no playlist of that name is stored. */
  function SnapshotOf(playlists: Playlists): (r: Playlists)
    ensures r.Keys == playlists.Keys + {DefaultPlaylist}
    ensures forall name :: name in playlists ==> r[name] == playlists[name]
    ensures DefaultPlaylist !in playlists ==> r[DefaultPlaylist] == []
  {
    if DefaultPlaylist in playlists then playlists else playlists[DefaultPlaylist := []]
  }

  /** `playlistName || 'default'`: a missing or empty name selects the default playlist. */
  function UploadTarget(playlistName: Option<string>): (name: string)
    ensures name != ""
    ensures playlistName.Some? && playlistName.value != "" ==> name == playlistName.value
    ensures playlistName.None? || playlistName.value == "" ==> name == DefaultPlaylist
  {
    match playlistName
    case Some(name) => if name == "" then DefaultPlaylist else name
    case None => DefaultPlaylist
  }

  /** The public address of an object: the configured public base, a slash, and the
      percent-encoded key. */
  function PublicUrl(publicBase: string, key: string): (url: string)
    ensures |url| > |publicBase| && url[..|publicBase| + 1] == publicBase + "/"
    ensures DecodeComponent(url[|publicBase| + 1..]) == Some(key)
  {
    var url := publicBase + "/" + EncodeComponent(key);
    assert url[|publicBase| + 1..] == EncodeComponent(key);
    DecodeEncode(key);
    url
  }

  /** The record an upload creates. The key and the id come from two separate readings of
      the clock: `keyTime` before the object is written, `idTime` after. The record keeps the
      name as uploaded, its key is free of forbidden characters and whitespace, its URL names
      that key under the public base, and its id is the decimal form of `idTime`. */
  function NewSong(originalName: string, keyTime: nat, idTime: nat, publicBase: string): (song: Song)
    ensures song.name == originalName
    ensures NoForbidden(song.fileName) && NoSpace(song.fileName)
    ensures |song.url| > |publicBase| && song.url[..|publicBase| + 1] == publicBase + "/"
    ensures DecodeComponent(song.url[|publicBase| + 1..]) == Some(song.fileName)
    ensures AllDigits(song.id) && ParseDigits(song.id) == idTime
  {
    var key := SafeFileName(keyTime, originalName);
    ParseNatToString(idTime);
    Song(NatToString(idTime), originalName, PublicUrl(publicBase, key), key)
  }

  /** `$push` with upsert: the song goes last in the named playlist, which is created when
      absent; every other playlist is unchanged. */
  function Appended(playlists: Playlists, name: string, song: Song): (r: Playlists)
    ensures r.Keys == playlists.Keys + {name}
    ensures r[name] == SongsOf(playlists, name) + [song]
    ensures forall other :: other in playlists && other != name ==> r[other] == playlists[other]
  {
    playlists[name := SongsOf(playlists, name) + [song]]
  }

  /** The position of the first song with this id, or the length when there is none. */
  function FirstMatch(songs: seq<Song>, id: string): (k: nat)
    ensures k <= |songs|
    ensures k < |songs| ==> songs[k].id == id
    ensures forall j :: 0 <= j < k ==> songs[j].id != id
  {
    if songs == [] then 0
    else if songs[0].id == id then 0
    else 1 + FirstMatch(songs[1..], id)
  }

  /** The positional `$set` of `songs.$.name`: the first song with this id gets the new name;
      every other song, and every other field, is unchanged. */
  function RenameFirst(songs: seq<Song>, id: string, newName: string): (r: seq<Song>)
    ensures |r| == |songs|
    ensures forall j :: 0 <= j < |r| && j != FirstMatch(songs, id) ==> r[j] == songs[j]
    ensures FirstMatch(songs, id) < |songs| ==>
      r[FirstMatch(songs, id)] == songs[FirstMatch(songs, id)].(name := newName)
  {
    if songs == [] then []
    else if songs[0].id == id then [songs[0].(name := newName)] + songs[1..]
    else [songs[0]] + RenameFirst(songs[1..], id, newName)
  }

  /** `PUT /api/music/rename` on the whole store: only the named playlist can change. */
  function Renamed(playlists: Playlists, playlistName: string, id: string, newName: string): (r: Playlists)
    ensures r.Keys == playlists.Keys
    ensures forall other :: other in playlists && other != playlistName ==> r[other] == playlists[other]
    ensures playlistName in playlists ==> r[playlistName] == RenameFirst(playlists[playlistName], id, newName)
  {
    if playlistName in playlists then playlists[playlistName := RenameFirst(playlists[playlistName], id, newName)]
    else playlists
  }

  /** `$pull: { songs: { id } }`: every song with this id is removed, every other song is
      kept as often as it occurs. */
  function PullAll(songs: seq<Song>, id: string): (r: seq<Song>)
    ensures forall j :: 0 <= j < |r| ==> r[j].id != id
    ensures forall x :: multiset(r)[x] == if x.id == id then 0 else multiset(songs)[x]
  {
    if songs == [] then []
    else
      assert songs == [songs[0]] + songs[1..];
      if songs[0].id == id then PullAll(songs[1..], id) else [songs[0]] + PullAll(songs[1..], id)
  }

  /** `DELETE /api/music` on the whole store: only the named playlist can change. */
  function Pulled(playlists: Playlists, playlistName: string, id: string): (r: Playlists)
    ensures r.Keys == playlists.Keys
    ensures forall other :: other in playlists && other != playlistName ==> r[other] == playlists[other]
    ensures playlistName in playlists ==> r[playlistName] == PullAll(playlists[playlistName], id)
  {
    if playlistName in playlists then playlists[playlistName := PullAll(playlists[playlistName], id)]
    else playlists
  }

  /** `Playlist.create` succeeds when the name is present (the schema's `required`) and not
      already taken (its `unique` index). */
  predicate CanCreate(playlists: Playlists, name: string) {
    name != "" && name !in playlists
  }

  /** The object deletes `DELETE /api/playlist` issues: one per member song, in order. */
  function DeletesOf(songs: seq<Song>): (effects: seq<BlobEffect>)
    ensures |effects| == |songs|
  {
    seq(|songs|, j requires 0 <= j < |songs| => Delete(songs[j].fileName))
  }

  class Store {
    var playlists: Playlists
    var blobLog: seq<BlobEffect>
    const publicBase: string

    constructor (publicBase: string)
      ensures playlists == map[] && blobLog == [] && this.publicBase == publicBase
    {
      playlists := map[];
      blobLog := [];
      this.publicBase := publicBase;
    }

    /** `GET /api/playlists`: copies every playlist into the reply, then adds `default`. */
    method GetPlaylists() returns (result: Playlists)
      ensures result == SnapshotOf(playlists)
    {
      result := map[];
      var pending := playlists.Keys;
      while pending != {}
        invariant pending <= playlists.Keys
        invariant result.Keys == playlists.Keys - pending
        invariant forall name :: name in result ==> result[name] == playlists[name]
        decreases pending
      {
        var name :| name in pending;
        result := result[name := playlists[name]];
        pending := pending - {name};
      }
      if DefaultPlaylist !in result {
        result := result[DefaultPlaylist := []];
      }
    }

    /** `POST /api/upload`. `file` is the uploaded file's (already decoded) original name, or
        None when the request carries no file; `keyTime` and `idTime` are the two clock
        readings; `blobWriteOk` and `recordWriteOk` are the outcomes of the two storage calls.
        The object is written before the record: when the record is appended the put is in
        the log, and a failed put leaves the playlists untouched. */
    method Upload(playlistName: Option<string>, file: Option<string>, keyTime: nat, idTime: nat,
                  blobWriteOk: bool, recordWriteOk: bool) returns (reply: UploadReply)
      modifies this
      ensures file.None? ==>
        reply == UploadFailed(MissingFile) && playlists == old(playlists) && blobLog == old(blobLog)
      ensures file.Some? && !blobWriteOk ==>
        reply == UploadFailed(BlobWriteFailed) && playlists == old(playlists) && blobLog == old(blobLog)
      ensures file.Some? && blobWriteOk ==>
        blobLog == old(blobLog) + [Put(SafeFileName(keyTime, file.value))]
      ensures file.Some? && blobWriteOk && !recordWriteOk ==>
        reply == UploadFailed(RecordWriteFailed) && playlists == old(playlists)
      ensures file.Some? && blobWriteOk && recordWriteOk ==>
        var song := NewSong(file.value, keyTime, idTime, publicBase);
        reply == Uploaded(song) && playlists == Appended(old(playlists), UploadTarget(playlistName), song)
    {
      if file.None? {
        return UploadFailed(MissingFile);
      }
      var originalName := file.value;
      var cleanName := CleanName(originalName);
      var safeFileName := NatToString(keyTime) + "-" + cleanName;
      if !blobWriteOk {
        return UploadFailed(BlobWriteFailed);
      }
      blobLog := blobLog + [Put(safeFileName)];
      var publicUrl := publicBase + "/" + EncodeComponent(safeFileName);
      var newSong := Song(NatToString(idTime), originalName, publicUrl, safeFileName);
      if !recordWriteOk {
        return UploadFailed(RecordWriteFailed);
      }
      var target := UploadTarget(playlistName);
      playlists := playlists[target := SongsOf(playlists, target) + [newSong]];
      reply := Uploaded(newSong);
    }

    /** `PUT /api/music/rename`: renames the first song with this id in the named playlist;
        an unknown playlist or id changes nothing. */
    method RenameSong(songId: string, newName: string, playlistName: string)
      modifies this
      ensures playlists == Renamed(old(playlists), playlistName, songId, newName)
      ensures blobLog == old(blobLog)
    {
      if playlistName in playlists {
        playlists := playlists[playlistName := RenameFirst(playlists[playlistName], songId, newName)];
      }
    }

    /** `DELETE /api/music`: removes every song with this id from the named playlist, then
        deletes the object named by `fileName`, whichever playlist was named. */
    method DeleteSong(fileName: string, playlistName: string, songId: string)
      modifies this
      ensures playlists == Pulled(old(playlists), playlistName, songId)
      ensures blobLog == old(blobLog) + [Delete(fileName)]
    {
      if playlistName in playlists {
        playlists := playlists[playlistName := PullAll(playlists[playlistName], songId)];
      }
      blobLog := blobLog + [Delete(fileName)];
    }

    /** `POST /api/playlist`: adds an empty playlist, or answers 400 and changes nothing when
        the name is empty or already taken. */
    method CreatePlaylist(name: string) returns (ok: bool)
      modifies this
      ensures ok == CanCreate(old(playlists), name)
      ensures playlists == if ok then old(playlists)[name := []] else old(playlists)
      ensures blobLog == old(blobLog)
    {
      ok := name != "" && name !in playlists;
      if ok {
        playlists := playlists[name := []];
      }
    }

    /** `DELETE /api/playlist`: deletes each member song's object, in order, then the
        playlist; an unknown name changes nothing. */
    method DeletePlaylist(name: string)
      modifies this
      ensures name in old(playlists) ==>
        blobLog == old(blobLog) + DeletesOf(old(playlists)[name]) && playlists == old(playlists) - {name}
      ensures name !in old(playlists) ==> playlists == old(playlists) && blobLog == old(blobLog)
    {
      if name in playlists {
        var songs := playlists[name];
        var i := 0;
        while i < |songs|
          invariant 0 <= i <= |songs|
          invariant blobLog == old(blobLog) + DeletesOf(songs[..i])
          invariant playlists == old(playlists)
        {
          blobLog := blobLog + [Delete(songs[i].fileName)];
          i := i + 1;
        }
        assert songs[..i] == songs;
        playlists := playlists - {name};
      }
    }
  }

  /** Removing songs works element by element: it distributes over concatenation. */
  lemma {:induction false} PullAllConcat(a: seq<Song>, b: seq<Song>, id: string)
    ensures PullAll(a + b, id) == PullAll(a, id) + PullAll(b, id)
  {
    if a == [] {
      assert a + b == b;
    } else {
      assert (a + b)[0] == a[0] && (a + b)[1..] == a[1..] + b;
      PullAllConcat(a[1..], b, id);
    }
  }

  lemma {:induction false} PullAllWithoutMatch(songs: seq<Song>, id: string)
    requires forall j :: 0 <= j < |songs| ==> songs[j].id != id
    ensures PullAll(songs, id) == songs
  {
    if songs != [] {
      PullAllWithoutMatch(songs[1..], id);
    }
  }

  /** Removing the same id twice removes nothing more. */
  lemma PullAllIdempotent(songs: seq<Song>, id: string)
    ensures PullAll(PullAll(songs, id), id) == PullAll(songs, id)
  {
    PullAllWithoutMatch(PullAll(songs, id), id);
  }

  /** Renaming keeps every id and touches only a song with the renamed id, so deleting that
      id after a rename leaves exactly what deleting it before the rename leaves. */
  lemma {:induction false} RenameKeepsIds(songs: seq<Song>, id: string, newName: string)
    ensures PullAll(RenameFirst(songs, id, newName), id) == PullAll(songs, id)
  {
    if songs != [] {
      if songs[0].id != id {
        RenameKeepsIds(songs[1..], id, newName);
      }
    }
  }

  /** Renaming an id that no song has changes nothing. */
  lemma RenameUnknownIdIsNoOp(songs: seq<Song>, id: string, newName: string)
    requires forall j :: 0 <= j < |songs| ==> songs[j].id != id
    ensures RenameFirst(songs, id, newName) == songs
  {
  }

  /** A freshly uploaded song that is then deleted by its id from the playlist it went to
      leaves that playlist as it was (created, empty, if it did not exist). */
  lemma UploadThenDeleteSong(playlists: Playlists, playlistName: Option<string>, song: Song)
    requires forall x :: x in SongsOf(playlists, UploadTarget(playlistName)) ==> x.id != song.id
    ensures var target := UploadTarget(playlistName);
      Pulled(Appended(playlists, target, song), target, song.id)
        == playlists[target := SongsOf(playlists, target)]
  {
    var target := UploadTarget(playlistName);
    var before := SongsOf(playlists, target);
    PullAllConcat(before, [song], song.id);
    PullAllWithoutMatch(before, song.id);
    assert PullAll([song], song.id) == [];
    assert before + [] == before;
  }

  /** An uploaded song is the last entry of its playlist in the next snapshot. */
  lemma UploadVisibleInSnapshot(playlists: Playlists, playlistName: Option<string>, song: Song)
    ensures var target := UploadTarget(playlistName);
      var snapshot := SnapshotOf(Appended(playlists, target, song));
      target in snapshot && |snapshot[target]| >= 1 && snapshot[target][|snapshot[target]| - 1] == song
  {
  }

  /** Deleting a playlist removes it from the snapshot, except that `default` then shows as
      empty. */
  lemma DeletedPlaylistInSnapshot(playlists: Playlists, name: string)
    ensures var snapshot := SnapshotOf(playlists - {name});
      && (name != DefaultPlaylist ==> name !in snapshot)
      && (name == DefaultPlaylist ==> snapshot[name] == [])
  {
  }

  /** Creating a playlist and then deleting it restores the store, and the deletion issues
      no object-store request, since the new playlist has no songs. */
  lemma CreateThenDeletePlaylist(playlists: Playlists, name: string)
    requires CanCreate(playlists, name)
    ensures playlists[name := []] - {name} == playlists
    ensures DeletesOf(playlists[name := []][name]) == []
  {
  }

  /** What the client reads from a listing (`data.playlists[name] || []`) is what the store
      holds under that name, or nothing when it holds no such playlist; for `default` the
      listing's added empty entry reads the same as its absence. */
  lemma ListingReadsStore(playlists: Playlists, name: string)
    ensures SongsOf(SnapshotOf(playlists), name) == SongsOf(playlists, name)
  {
  }

  /** The stored record is self-describing: its key reads back as the upload time and the
      cleaned name, and its URL's last segment decodes to that key. */
  lemma NewSongNamesItsObject(originalName: string, keyTime: nat, idTime: nat, publicBase: string)
    ensures var song := NewSong(originalName, keyTime, idTime, publicBase);
      && SplitKey(song.fileName) == Some((keyTime, CleanName(originalName)))
      && DecodeComponent(song.url[|publicBase| + 1..]) == Some(SafeFileName(keyTime, originalName))
  {
    SafeFileNameSplits(keyTime, originalName);
  }
}
