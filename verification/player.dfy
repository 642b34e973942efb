/** The browser client's playback sequencer: the current playlist and its songs, the
    current position, the play/pause flag and the shuffle flag, driven by the play button,
    the previous/next buttons, the end of a track, the shuffle button and the playlist
    selector; and the upload counter of the file picker. */
module Player {
  import opened Records

  /** The sequencer's state: the five module-level variables, plus what the code relies on
      about the media element: its source (None when unloaded) and whether the last request
      sent to it was `play()` rather than `pause()`. */
  datatype PlayerState = PlayerState(
    playlist: string,
    songs: seq<Song>,
    index: nat,
    playing: bool,
    shuffle: bool,
    src: Option<string>,
    playRequested: bool)

  /** The state when the page loads. */
  const Initial := PlayerState("default", [], 0, false, false, None, false)

  /** JavaScript's `%`: the remainder takes the sign of the dividend. */
  function JsRemainder(a: int, n: int): (r: int)
    requires n != 0
    ensures a >= 0 && n > 0 ==> r == a % n
    ensures a < 0 ==> r <= 0
  {
    var m := if n < 0 then -n else n;
    if a >= 0 then a % m else -((-a) % m)
  }

  /** `Math.floor(Math.random() * n)` for a random number in [0, 1): a position in the list. */
  function ShufflePick(random: real, n: nat): (k: nat)
    requires 0.0 <= random < 1.0 && n > 0
    ensures k < n
  {
    var x := random * n as real;
    assert 0.0 <= x < n as real by {
      assert random * n as real <= random * n as real;
      assert (1.0 - random) * n as real > 0.0;
    }
    x.Floor
  }

  /** Every position can come out of the shuffle draw, the current one included. */
  lemma ShuffleReachesEvery(n: nat, k: nat)
    requires k < n
    ensures exists random: real :: 0.0 <= random < 1.0 && ShufflePick(random, n) == k
  {
    var random := k as real / n as real;
    assert random * n as real == k as real;
    assert ShufflePick(random, n) == k;
  }

  /** `playSong(index)`: loads and plays the chosen song and sets the flag at once, whatever
      the element later makes of the request; nothing happens when the list is empty. */
  function PlayStep(s: PlayerState, index: nat): (t: PlayerState)
    requires s.songs == [] || index < |s.songs|
    ensures s.songs == [] ==> t == s
    ensures s.songs != [] ==>
      && t.index == index && t.playing && t.playRequested && t.src == Some(s.songs[index].url)
      && t.songs == s.songs && t.playlist == s.playlist && t.shuffle == s.shuffle
  {
    if s.songs == [] then s
    else s.(index := index, src := Some(s.songs[index].url), playRequested := true, playing := true)
  }

  /** `togglePlay` as written: pauses when playing, resumes when paused with a source, and
      with no source plays the first song and then negates the flag, so it ends with the first
      song requested but the flag down. */
  function ToggleStep(s: PlayerState): (t: PlayerState)
    ensures s.songs == [] ==> t == s
    ensures s.songs != [] && s.playing ==> t == s.(playing := false, playRequested := false)
    ensures s.songs != [] && !s.playing && s.src.Some? ==> t == s.(playing := true, playRequested := true)
    ensures s.songs != [] && !s.playing && s.src.None? ==>
      t == PlayStep(s, 0).(playing := false) && t.index == 0 && !t.playing && t.playRequested
  {
    if s.songs == [] then s
    else
      var u :=
        if s.playing then s.(playRequested := false)
        else if s.src.None? then PlayStep(s, 0)
        else s.(playRequested := true);
      u.(playing := !u.playing)
  }

  /** `togglePlay` as evidently intended: with no source it plays the first song and leaves
      the flag up, like any other start of playback. */
  function ToggleStepIntended(s: PlayerState): (t: PlayerState)
    ensures s.songs == [] ==> t == s
    ensures s.songs != [] && s.playing ==> t == s.(playing := false, playRequested := false)
    ensures s.songs != [] && !s.playing && s.src.Some? ==> t == s.(playing := true, playRequested := true)
    ensures s.songs != [] && !s.playing && s.src.None? ==> t == PlayStep(s, 0)
  {
    if s.songs == [] then s
    else if s.playing then s.(playRequested := false, playing := false)
    else if s.src.None? then PlayStep(s, 0)
    else s.(playRequested := true, playing := true)
  }

  /** `playPrevious`: plays the song at `(index - 1 + n) % n`, the one before the current
      one, wrapping from the first to the last; the new position is in range even when the
      old one no longer is (the list may have shrunk since it was set). */
  function PreviousStep(s: PlayerState): (t: PlayerState)
    ensures s.songs == [] ==> t == s
    ensures s.songs != [] ==>
      && t.index < |s.songs|
      && t.index == (s.index - 1 + |s.songs|) % |s.songs|
      && t == PlayStep(s, t.index)
  {
    if s.songs == [] then s
    else
      var n := |s.songs|;
      PlayStep(s, JsRemainder(s.index - 1 + n, n))
  }

  /** The remainder of `x` by `n` when `x` lies in the `q`-th block of `n` numbers. */
  lemma ModInBlock(x: int, n: int, q: int)
    requires n > 0 && q * n <= x < (q + 1) * n
    ensures x % n == x - q * n
  {
    var d, m := x / n, x % n;
    assert x == d * n + m && 0 <= m < n;
    if d > q {
      MulNonNegative(d - q - 1, n);
      assert false;
    } else if d < q {
      MulNonNegative(q - d - 1, n);
      assert false;
    }
  }

  /** A nonlinear fact the solver does not find unaided inside `ModInBlock`; calling it names
      the product it needs. */
  lemma MulNonNegative(a: int, b: int)
    requires a >= 0 && b >= 0
    ensures a * b >= 0
  {
  }

  /** `playNext` (also run when a track ends): the next song, wrapping from the last to the
      first, or with shuffle on the song the draw picks (possibly the current one). */
  function NextStep(s: PlayerState, random: real): (t: PlayerState)
    requires 0.0 <= random < 1.0
    ensures s.songs == [] ==> t == s
    ensures s.songs != [] ==> t.index < |s.songs| && t == PlayStep(s, t.index)
    ensures s.songs != [] && !s.shuffle ==> t.index == (s.index + 1) % |s.songs|
    ensures s.songs != [] && s.shuffle ==> t.index == ShufflePick(random, |s.songs|)
  {
    if s.songs == [] then s
    else
      var n := |s.songs|;
      var k := if s.shuffle then ShufflePick(random, n) else JsRemainder(s.index + 1, n);
      PlayStep(s, k)
  }

  /** `toggleShuffle`: flips the shuffle flag and nothing else. */
  function ShuffleStep(s: PlayerState): (t: PlayerState)
    ensures t.shuffle == !s.shuffle
    ensures t.(shuffle := s.shuffle) == s
  {
    s.(shuffle := !s.shuffle)
  }

  /** `handlePlaylistChange`: selects the playlist at once; once the snapshot has arrived it
      loads that playlist's songs (none when the name is absent), unloads the element and
      goes back to the first position, paused. A failed fetch leaves only the new name. */
  function SwitchStep(s: PlayerState, name: string, snapshot: Option<Playlists>): (t: PlayerState)
    ensures t.playlist == name && t.shuffle == s.shuffle
    ensures snapshot.None? ==> t == s.(playlist := name)
    ensures snapshot.Some? ==>
      && t.songs == SongsOf(snapshot.value, name)
      && t.index == 0 && !t.playing && !t.playRequested && t.src == None
  {
    match snapshot
    case None => s.(playlist := name)
    case Some(playlists) =>
      s.(playlist := name, songs := SongsOf(playlists, name), src := None, playRequested := false,
         playing := false, index := 0)
  }

  /** `loadPlaylists` (after start-up, an upload, a delete or a new playlist): keeps the
      selector's playlist, or the current one when the selector is empty, and reloads its
      songs; position, flags and element are left alone. A failed fetch changes nothing. */
  function ReloadStep(s: PlayerState, selectorValue: string, snapshot: Option<Playlists>): (t: PlayerState)
    ensures snapshot.None? ==> t == s
    ensures snapshot.Some? ==>
      var selected := if selectorValue == "" then s.playlist else selectorValue;
      t == s.(playlist := selected, songs := SongsOf(snapshot.value, selected))
  {
    match snapshot
    case None => s
    case Some(playlists) =>
      var selected := if selectorValue == "" then s.playlist else selectorValue;
      s.(playlist := selected, songs := SongsOf(playlists, selected))
  }

  /** The play button shows what was last asked of the media element. */
  predicate InSync(s: PlayerState) {
    s.playing == s.playRequested
  }

  /** The flag is only up while a source is loaded. */
  predicate PlaysLoadedSource(s: PlayerState) {
    s.playing ==> s.src.Some?
  }

  /** Every transition except `togglePlay` as written keeps the button in step with the
      element, and every transition keeps the flag down while no source is loaded. */
  lemma TransitionsKeepInvariants(s: PlayerState, index: nat, random: real, name: string,
                                  selectorValue: string, snapshot: Option<Playlists>)
    requires InSync(s) && PlaysLoadedSource(s)
    requires s.songs == [] || index < |s.songs|
    requires 0.0 <= random < 1.0
    ensures InSync(PlayStep(s, index)) && PlaysLoadedSource(PlayStep(s, index))
    ensures InSync(ToggleStepIntended(s)) && PlaysLoadedSource(ToggleStepIntended(s))
    ensures PlaysLoadedSource(ToggleStep(s))
    ensures InSync(PreviousStep(s)) && PlaysLoadedSource(PreviousStep(s))
    ensures InSync(NextStep(s, random)) && PlaysLoadedSource(NextStep(s, random))
    ensures InSync(ShuffleStep(s)) && PlaysLoadedSource(ShuffleStep(s))
    ensures InSync(SwitchStep(s, name, snapshot)) && PlaysLoadedSource(SwitchStep(s, name, snapshot))
    ensures InSync(ReloadStep(s, selectorValue, snapshot)) && PlaysLoadedSource(ReloadStep(s, selectorValue, snapshot))
  {
  }

  /** The first press of the play button after the page loads (a non-empty list, no source)
      starts the first song but leaves the button showing "paused". */
  lemma ToggleStepLosesSync(song: Song)
    ensures var s := Initial.(songs := [song]);
      InSync(s) && !InSync(ToggleStep(s)) && ToggleStep(s).playRequested && !ToggleStep(s).playing
  {
  }

  /** Pressing play twice with a source loaded and the button in step gives back the state. */
  lemma ToggleTwice(s: PlayerState)
    requires s.src.Some? && InSync(s)
    ensures ToggleStep(ToggleStep(s)) == s
    ensures ToggleStepIntended(ToggleStepIntended(s)) == s
  {
  }

  /** Pressing shuffle twice gives back the state. */
  lemma ShuffleTwice(s: PlayerState)
    ensures ShuffleStep(ShuffleStep(s)) == s
  {
  }

  /** With shuffle off and the position in range, "previous" undoes "next" and "next" undoes
      "previous". */
  lemma PreviousUndoesNext(s: PlayerState, random: real)
    requires s.songs != [] && !s.shuffle && s.index < |s.songs|
    requires 0.0 <= random < 1.0
    ensures PreviousStep(NextStep(s, random)).index == s.index
    ensures NextStep(PreviousStep(s), random).index == s.index
  {
    var n, i := |s.songs|, s.index;
    var j := NextStep(s, random).index;
    var k := PreviousStep(s).index;
    if i + 1 < n {
      ModInBlock(i + 1, n, 0);
      ModInBlock(j - 1 + n, n, 1);
    } else {
      ModInBlock(i + 1, n, 1);
      ModInBlock(j - 1 + n, n, 0);
    }
    if i == 0 {
      ModInBlock(i - 1 + n, n, 0);
      ModInBlock(k + 1, n, 1);
    } else {
      ModInBlock(i - 1 + n, n, 1);
      ModInBlock(k + 1, n, 0);
    }
  }

  /** The result of one file's request in `handleUpload`: a response (ok or not) or a
      network error. */
  datatype UploadOutcome = Responded(ok: bool) | NetworkError

  /** The number of requests answered with an ok status. */
  function Successes(outcomes: seq<UploadOutcome>): (count: nat)
    ensures count <= |outcomes|
    ensures count == |outcomes| <==> forall i :: 0 <= i < |outcomes| ==> outcomes[i] == Responded(true)
  {
    if outcomes == [] then 0
    else
      var last := outcomes[|outcomes| - 1];
      Successes(outcomes[..|outcomes| - 1]) + if last == Responded(true) then 1 else 0
  }

  /** The counting loop of `handleUpload`: for a non-empty selection, the number of uploads
      the server accepted and the number attempted (the figures of the summary toast); an
      empty selection returns at once. */
  method CountUploads(outcomes: seq<UploadOutcome>) returns (summary: Option<(nat, nat)>)
    ensures outcomes == [] ==> summary == None
    ensures outcomes != [] ==> summary == Some((Successes(outcomes), |outcomes|))
  {
    if |outcomes| == 0 {
      return None;
    }
    var successCount := 0;
    for i := 0 to |outcomes|
      invariant successCount == Successes(outcomes[..i])
    {
      assert outcomes[..i + 1][..i] == outcomes[..i];
      if outcomes[i] == Responded(true) {
        successCount := successCount + 1;
      }
    }
    assert outcomes[..|outcomes|] == outcomes;
    summary := Some((successCount, |outcomes|));
  }

  /** The module-level variables of the client and the media element they drive. */
  class Sequencer {
    var currentPlaylist: string
    var currentSongs: seq<Song>
    var currentIndex: nat
    var isPlaying: bool
    var isShuffle: bool
    var src: Option<string>
    var playRequested: bool

    function View(): PlayerState
      reads this
    {
      PlayerState(currentPlaylist, currentSongs, currentIndex, isPlaying, isShuffle, src, playRequested)
    }

    constructor ()
      ensures View() == Initial
    {
      currentPlaylist := "default";
      currentSongs := [];
      currentIndex := 0;
      isPlaying := false;
      isShuffle := false;
      src := None;
      playRequested := false;
    }

    method PlaySong(index: nat)
      requires currentSongs == [] || index < |currentSongs|
      modifies this
      ensures View() == PlayStep(old(View()), index)
    {
      if |currentSongs| == 0 {
        return;
      }
      currentIndex := index;
      var song := currentSongs[currentIndex];
      src := Some(song.url);
      playRequested := true;  // a rejected play() is only logged
      isPlaying := true;
    }

    method TogglePlay()
      modifies this
      ensures View() == ToggleStep(old(View()))
    {
      if |currentSongs| == 0 {
        return;
      }
      if isPlaying {
        playRequested := false;
      } else if src.None? {
        PlaySong(0);
      } else {
        playRequested := true;
      }
      isPlaying := !isPlaying;
    }

    method TogglePlayIntended()
      modifies this
      ensures View() == ToggleStepIntended(old(View()))
    {
      if |currentSongs| == 0 {
        return;
      }
      if isPlaying {
        playRequested := false;
        isPlaying := false;
      } else if src.None? {
        PlaySong(0);
      } else {
        playRequested := true;
        isPlaying := true;
      }
    }

    method PlayPrevious()
      modifies this
      ensures View() == PreviousStep(old(View()))
    {
      if |currentSongs| == 0 {
        return;
      }
      currentIndex := JsRemainder(currentIndex - 1 + |currentSongs|, |currentSongs|);
      PlaySong(currentIndex);
    }

    method PlayNext(random: real)
      requires 0.0 <= random < 1.0
      modifies this
      ensures View() == NextStep(old(View()), random)
    {
      if |currentSongs| == 0 {
        return;
      }
      if isShuffle {
        currentIndex := ShufflePick(random, |currentSongs|);
      } else {
        currentIndex := JsRemainder(currentIndex + 1, |currentSongs|);
      }
      PlaySong(currentIndex);
    }

    method ToggleShuffle()
      modifies this
      ensures View() == ShuffleStep(old(View()))
    {
      isShuffle := !isShuffle;
    }

    method HandlePlaylistChange(value: string, snapshot: Option<Playlists>)
      modifies this
      ensures View() == SwitchStep(old(View()), value, snapshot)
    {
      currentPlaylist := value;
      if snapshot.None? {
        return;
      }
      currentSongs := SongsOf(snapshot.value, currentPlaylist);
      playRequested := false;  // audio.pause()
      src := None;
      isPlaying := false;
      currentIndex := 0;
    }

    method LoadPlaylists(selectorValue: string, snapshot: Option<Playlists>)
      modifies this
      ensures View() == ReloadStep(old(View()), selectorValue, snapshot)
    {
      if snapshot.None? {
        return;
      }
      var selectedPlaylist := if selectorValue == "" then currentPlaylist else selectorValue;
      currentPlaylist := selectedPlaylist;
      currentSongs := SongsOf(snapshot.value, currentPlaylist);
    }
  }
}
