/**
 * YouTube Music to Spotify (YouTubeConverterClass.py): the Spotify query chosen per track, the
 * best-match scan over Spotify search results, the id/count map the playlist loop builds,
 * playlist creation in batches of 100 with the duplicate policy, and liked-album conversion.
 */
module YouTubeConverter {
  import opened Results
  import opened Text
  import opened Seqs
  import opened Ranking
  import opened PyDict
  import opened Converter
  import opened Albums

  // Queries

  /** The YouTube Music video type of an official audio track. */
  const AudioTrackType := "MUSIC_VIDEO_TYPE_ATV"

  /** The Spotify search query: title and artist for an audio track, the title alone otherwise. */
  function SpQuery(info: SongInfo, videoType: string): string
  {
    if videoType == AudioTrackType then info.title + " " + info.artist else info.title
  }

  /** The text a YouTube Music track is reported under. */
  function FullSpQuery(info: SongInfo): string
  {
    info.title + " by " + info.artist
  }

  /**
   * The search query starts with the title and is never the reported text; it names the artist
   * exactly for audio tracks.
   */
  lemma SpQueryShape(info: SongInfo, videoType: string)
    ensures SpQuery(info, videoType)[..|info.title|] == info.title
    ensures FullSpQuery(info)[..|info.title|] == info.title
    ensures SpQuery(info, videoType) != FullSpQuery(info)
    ensures videoType == AudioTrackType ==>
              SpQuery(info, videoType)[|SpQuery(info, videoType)| - |info.artist|..] == info.artist
    ensures videoType != AudioTrackType ==> SpQuery(info, videoType) == info.title
  {
    assert |SpQuery(info, videoType)| < |FullSpQuery(info)|;
  }

  // Best match

  /**
   * `math.exp(EXP_COEFFICIENT * gap)` as an outcome: a finite amount, or the `OverflowError`
   * the exponential raises for a large gap.
   */
  datatype Penalty = Finite(amount: real) | Overflow

  /** Penalty order: finite amounts by value, and overflow above all of them. */
  predicate PenaltyAtMost(p: Penalty, q: Penalty)
  {
    match (p, q)
    case (Finite(a), Finite(b)) => a <= b
    case (_, Overflow) => true
    case (Overflow, Finite(_)) => false
  }

  /** The penalty grows with the duration gap, as `exp` of a positive multiple of it does. */
  ghost predicate Increasing(penalty: real -> Penalty)
  {
    forall d1: real, d2: real :: 0.0 <= d1 <= d2 ==> PenaltyAtMost(penalty(d1), penalty(d2))
  }

  /** Strict penalty order: finite amounts by value, and overflow above every amount and itself. */
  predicate PenaltyBelow(p: Penalty, q: Penalty)
  {
    match (p, q)
    case (Finite(a), Finite(b)) => a < b
    case (_, Overflow) => true
    case (Overflow, Finite(_)) => false
  }

  /** The penalty grows strictly with the gap until it overflows, as `exp` of a positive multiple of it does. */
  ghost predicate StrictlyIncreasing(penalty: real -> Penalty)
  {
    forall d1: real, d2: real :: 0.0 <= d1 < d2 ==> PenaltyBelow(penalty(d1), penalty(d2))
  }

  /** `abs(song_info["duration_seconds"] - res_info["duration_seconds"])`. */
  function Gap(target: SongInfo, c: SongInfo): (g: real)
    ensures g >= 0.0
    ensures g == 0.0 <==> target.seconds == c.seconds
  {
    if target.seconds >= c.seconds then target.seconds - c.seconds else c.seconds - target.seconds
  }

  /** The same title and the same artist: the result `find_best_match` stops at. */
  predicate ExactHit(target: SongInfo, c: SongInfo)
  {
    target.title == c.title && target.artist == c.artist
  }

  /** `SCORE_COEFFICIENT` when the result's album is non-empty and equals the target's, else nothing. */
  function AlbumBonus(target: SongInfo, c: SongInfo, unit: real): (b: real)
    ensures b == unit || b == 0.0
    ensures b != 0.0 ==> c.album.Some? && c.album.value != "" && c.album == target.album
    ensures c.album.Some? && c.album.value != "" && c.album == target.album ==> b == unit
  {
    if c.album.Some? && c.album.value != "" && c.album == target.album then unit else 0.0
  }

  /**
   * The score of a result that is not an exact hit: its album bonus minus the duration penalty,
   * or minus infinity when the penalty overflows, whatever the bonus.
   */
  function Score(target: SongInfo, c: SongInfo, unit: real, penalty: real -> Penalty): (s: ExtReal)
    ensures s != PosInf
    ensures s == NegInf <==> penalty(Gap(target, c)).Overflow?
    ensures s.Fin? ==> s.r + penalty(Gap(target, c)).amount == AlbumBonus(target, c, unit)
  {
    match penalty(Gap(target, c))
    case Overflow => NegInf
    case Finite(p) => Fin(AlbumBonus(target, c, unit) - p)
  }

  /**
   * The assignments `found[id] = score` of the scan in `find_best_match`, in result order: an
   * exact hit is assigned infinity and ends the scan; every other result gets its score.
   */
  function Scan(results: seq<SpTrack>, target: SongInfo, unit: real, penalty: real -> Penalty): (pairs: seq<(string, ExtReal)>)
    ensures |pairs| <= |results|
    ensures results != [] ==> pairs != []
    ensures forall j :: 0 <= j < |pairs| ==> pairs[j].0 == results[j].id
  {
    if results == [] then []
    else
      var c := SpSongInfo(results[0]);
      if ExactHit(target, c) then [(c.id, PosInf)]
      else [(c.id, Score(target, c, unit, penalty))] + Scan(results[1..], target, unit, penalty)
  }

  /** The scan of results none of which is an exact hit assigns every result its score. */
  function Scores(results: seq<SpTrack>, target: SongInfo, unit: real, penalty: real -> Penalty): (pairs: seq<(string, ExtReal)>)
    ensures |pairs| == |results|
    ensures forall j :: 0 <= j < |pairs| ==> pairs[j].0 == results[j].id && pairs[j].1 != PosInf
  {
    seq(|results|, i requires 0 <= i < |results| =>
          (results[i].id, Score(target, SpSongInfo(results[i]), unit, penalty)))
  }

  /**
   * `find_best_match`: `None` for the `ValueError` that `max` raises on an empty result list;
   * otherwise the id of one of the results, even when every score is minus infinity.
   */
  function FindBestMatch(results: seq<SpTrack>, target: SongInfo, unit: real, penalty: real -> Penalty): (r: Option<string>)
    ensures r.None? <==> results == []
    ensures r.Some? ==> exists i :: 0 <= i < |results| && results[i].id == r.value
  {
    var pairs := Scan(results, target, unit, penalty);
    var r := BestKey(pairs);
    assert r.Some? ==> exists i :: 0 <= i < |pairs| && KeysOf(pairs)[i] == r.value;
    r
  }

  /** Up to the first exact hit at `i`, the scan assigns scores, then infinity to the hit. */
  lemma {:induction false} ScanUpToHit(results: seq<SpTrack>, target: SongInfo, unit: real, penalty: real -> Penalty, i: nat)
    requires i < |results| && ExactHit(target, SpSongInfo(results[i]))
    requires forall j :: 0 <= j < i ==> !ExactHit(target, SpSongInfo(results[j]))
    ensures Scan(results, target, unit, penalty) == Scores(results[..i], target, unit, penalty) + [(results[i].id, PosInf)]
  {
    if i > 0 {
      ScanUpToHit(results[1..], target, unit, penalty, i - 1);
      assert results[1..][..i - 1] == results[..i][1..];
    }
  }

  /** With no exact hit anywhere, the scan assigns every result its score. */
  lemma {:induction false} ScanWithoutHit(results: seq<SpTrack>, target: SongInfo, unit: real, penalty: real -> Penalty)
    requires forall j :: 0 <= j < |results| ==> !ExactHit(target, SpSongInfo(results[j]))
    ensures Scan(results, target, unit, penalty) == Scores(results, target, unit, penalty)
  {
    if results != [] {
      ScanWithoutHit(results[1..], target, unit, penalty);
    }
  }

  /**
   * The first result with the target's exact title and artist wins outright, whatever the
   * results before it scored.
   */
  lemma ExactHitWins(results: seq<SpTrack>, target: SongInfo, unit: real, penalty: real -> Penalty, i: nat)
    requires i < |results| && ExactHit(target, SpSongInfo(results[i]))
    requires forall j :: 0 <= j < i ==> !ExactHit(target, SpSongInfo(results[j]))
    ensures FindBestMatch(results, target, unit, penalty) == Some(results[i].id)
  {
    ScanUpToHit(results, target, unit, penalty, i);
    BestKeyOfTop(Scan(results, target, unit, penalty), results[i].id);
  }

  /**
   * Without an exact hit the scan never stops early, so the pick is `max` over every result's
   * score: the earliest-seen id whose last assigned score is maximal.
   */
  lemma BestMatchWithoutHit(results: seq<SpTrack>, target: SongInfo, unit: real, penalty: real -> Penalty)
    requires forall j :: 0 <= j < |results| ==> !ExactHit(target, SpSongInfo(results[j]))
    ensures FindBestMatch(results, target, unit, penalty) == BestKey(Scores(results, target, unit, penalty))
  {
    ScanWithoutHit(results, target, unit, penalty);
  }

  /**
   * With the same album bonus, a result further from the target's duration never scores above a
   * nearer one, provided the penalty grows with the gap.
   */
  lemma ScoreDecreasesWithGap(target: SongInfo, near: SongInfo, far: SongInfo, unit: real, penalty: real -> Penalty)
    requires Increasing(penalty)
    requires AlbumBonus(target, near, unit) == AlbumBonus(target, far, unit)
    requires Gap(target, near) <= Gap(target, far)
    ensures AtMost(Score(target, far, unit, penalty), Score(target, near, unit, penalty))
  {
    assert PenaltyAtMost(penalty(Gap(target, near)), penalty(Gap(target, far)));
  }

  /**
   * With the same album bonus, a result strictly further from the target's duration scores
   * strictly below a nearer one whose penalty did not overflow, provided the penalty grows strictly.
   */
  lemma ScoreStrictlyDecreasesWithGap(target: SongInfo, near: SongInfo, far: SongInfo, unit: real, penalty: real -> Penalty)
    requires StrictlyIncreasing(penalty)
    requires AlbumBonus(target, near, unit) == AlbumBonus(target, far, unit)
    requires Gap(target, near) < Gap(target, far)
    requires Score(target, near, unit, penalty).Fin?
    ensures Less(Score(target, far, unit, penalty), Score(target, near, unit, penalty))
  {
    assert PenaltyBelow(penalty(Gap(target, near)), penalty(Gap(target, far)));
  }

  /**
   * The album bonus needs the YouTube Music album name to be all lower case: the Spotify album
   * it is compared with has been case-folded, the YouTube one has not.
   */
  lemma AlbumBonusNeedsFoldedAlbum(target: SongInfo, res: SpTrack, unit: real)
    requires target.album.Some? && HasUpper(target.album.value)
    ensures AlbumBonus(target, SpSongInfo(res), unit) == 0.0
  {
  }

  // The playlist loop

  /**
   * What happens to one YouTube Music playlist entry in `convert_YT_to_SP_playlist`, or `None`
   * for the `ValueError` of an unreadable duration, which no handler catches and which ends the
   * whole conversion. A null entry is removed; otherwise Spotify is searched, and an empty result
   * list means not found.
   */
  function ClassifyYt(track: Option<YtTrack>, search: string -> seq<SpTrack>, unit: real, penalty: real -> Penalty): (o: Option<Outcome>)
    ensures track.None? ==> o == Some(Removed)
    ensures o.None? <==> track.Some? && YtSongInfo(track.value).None?
    ensures o.Some? && !o.value.Removed? ==>
              var info := YtSongInfo(track.value).value;
              var results := search(SpQuery(info, track.value.videoType));
              && o.value.query == FullSpQuery(info)
              && (o.value.NotFound? <==> results == [])
              && (o.value.Found? ==> exists i :: 0 <= i < |results| && results[i].id == o.value.id)
              && (o.value.Found? <==> FindBestMatch(results, info, unit, penalty).Some?)
              && (o.value.Found? ==> Some(o.value.id) == FindBestMatch(results, info, unit, penalty))
  {
    match track
    case None => Some(Removed)
    case Some(t) =>
      match YtSongInfo(t)
      case None => None
      case Some(info) =>
        var q := FullSpQuery(info);
        match FindBestMatch(search(SpQuery(info, t.videoType)), info, unit, penalty)
        case None => Some(NotFound(q))
        case Some(id) => Some(Found(q, id))
  }

  /** The outcomes of a whole playlist, or `None` when one of its entries ends the conversion. */
  function ClassifyAllYt(tracks: seq<Option<YtTrack>>, search: string -> seq<SpTrack>, unit: real, penalty: real -> Penalty): (r: Option<seq<Outcome>>)
    ensures r.None? <==> exists i :: 0 <= i < |tracks| && ClassifyYt(tracks[i], search, unit, penalty).None?
    ensures r.Some? ==> |r.value| == |tracks|
    ensures r.Some? ==> forall i :: 0 <= i < |tracks| ==> Some(r.value[i]) == ClassifyYt(tracks[i], search, unit, penalty)
  {
    if tracks == [] then Some([])
    else
      match ClassifyYt(tracks[0], search, unit, penalty)
      case None => None
      case Some(o) =>
        match ClassifyAllYt(tracks[1..], search, unit, penalty)
        case None =>
          assert forall i :: 0 <= i < |tracks| - 1 ==> tracks[1..][i] == tracks[i + 1];
          None
        case Some(rest) => Some([o] + rest)
  }

  /** One entry of `sp_playlist`: the text of the first track matched to the id, and how many matched it. */
  datatype Pending = Pending(fullQuery: string, count: nat)

  /** The id/count map under construction and the tally. */
  datatype SpAssembly = SpAssembly(playlist: Dict<string, Pending>, tally: Tally)

  /** The matches among the outcomes, as (id, query) pairs in source order. */
  function MatchPairs(outs: seq<Outcome>): (ms: seq<(string, string)>)
  {
    if outs == [] then []
    else
      var i := |outs| - 1;
      MatchPairs(outs[..i]) + (if outs[i].Found? then [(outs[i].id, outs[i].query)] else [])
  }

  /** The ids of the match pairs are the matched ids. */
  lemma {:induction false} MatchPairsKeys(outs: seq<Outcome>)
    ensures KeysOf(MatchPairs(outs)) == FoundIds(outs)
  {
    if outs != [] {
      var i := |outs| - 1;
      MatchPairsKeys(outs[..i]);
      if outs[i].Found? {
        FirstValueSnoc(MatchPairs(outs[..i]), outs[i].id, outs[i].query);
      }
    }
  }

  /** `sp_playlist[id]['count'] += 1`. */
  function Bump(d: Dict<string, Pending>, id: string): (d': Dict<string, Pending>)
    requires d.Valid() && id in d.vals
  {
    d.Put(id, d.vals[id].(count := d.vals[id].count + 1))
  }

  /** One iteration of the loop of `convert_YT_to_SP_playlist`, for the track at position `index`. */
  function StepSp(a: SpAssembly, name: string, index: nat, o: Outcome): SpAssembly
    requires a.playlist.Valid()
  {
    match o
    case Found(q, id) =>
      if id in a.playlist.vals then a.(playlist := Bump(a.playlist, id))
      else a.(playlist := a.playlist.Put(id, Pending(q, 1)))
    case _ => a.(tally := RecordMiss(a.tally, name, index, o))
  }

  /**
   * The id/count map left by the matches `ms`: its keys are the matched ids in first-match order,
   * each holding the query of its first match and its number of matches.
   */
  ghost predicate CountsOf(ms: seq<(string, string)>, d: Dict<string, Pending>)
  {
    && d.Valid()
    && d.keys == Dedup(KeysOf(ms))
    && (forall k :: CountOf(ms, d, k))
  }

  /** The entry of `k`, if any, holds the query of its first match in `ms` and its number of matches. */
  ghost predicate CountOf(ms: seq<(string, string)>, d: Dict<string, Pending>, k: string)
  {
    k in d.vals ==> k in KeysOf(ms) && d.vals[k] == Pending(FirstValue(ms, k), multiset(KeysOf(ms))[k])
  }

  /** The entry of one key after a first match of `id`. */
  lemma CountOfNew(ms: seq<(string, string)>, d: Dict<string, Pending>, q: string, id: string, k: string)
    requires d.Valid() && CountOf(ms, d, k) && id !in d.vals && (id in KeysOf(ms) ==> id in d.vals)
    ensures CountOf(ms + [(id, q)], d.Put(id, Pending(q, 1)), k)
  {
    var ms' := ms + [(id, q)];
    FirstValueSnoc(ms, id, q);
    assert multiset(KeysOf(ms'))[k] == multiset(KeysOf(ms))[k] + (if k == id then 1 else 0);
    if k == id {
      assert multiset(KeysOf(ms))[k] == 0;
    }
  }

  /** The entry of one key after a repeated match of `id`. */
  lemma CountOfRepeat(ms: seq<(string, string)>, d: Dict<string, Pending>, q: string, id: string, k: string)
    requires d.Valid() && CountOf(ms, d, k) && CountOf(ms, d, id) && id in d.vals
    ensures CountOf(ms + [(id, q)], Bump(d, id), k)
  {
    var ms' := ms + [(id, q)];
    FirstValueSnoc(ms, id, q);
    assert multiset(KeysOf(ms'))[k] == multiset(KeysOf(ms))[k] + (if k == id then 1 else 0);
  }

  /** The tally `t` is `tally` with `missed` logged as unfound under `name`, and nothing else changed. */
  ghost predicate Logged(missed: seq<string>, name: string, tally: Tally, t: Tally)
  {
    && t.Keys == (if missed == [] then tally.Keys else tally.Keys + {name})
    && (forall p :: p in tally && p != name ==> t[p] == tally[p])
    && EntryOf(t, name) == EntryOf(tally, name).(unfound := EntryOf(tally, name).unfound + missed)
  }

  /** A first match of an id adds it with count 1 and its query. */
  lemma CountsNew(ms: seq<(string, string)>, d: Dict<string, Pending>, q: string, id: string)
    requires CountsOf(ms, d) && id !in d.vals
    ensures CountsOf(ms + [(id, q)], d.Put(id, Pending(q, 1)))
  {
    FirstValueSnoc(ms, id, q);
    DedupSnoc(KeysOf(ms), id);
    forall k ensures CountOf(ms + [(id, q)], d.Put(id, Pending(q, 1)), k) {
      CountOfNew(ms, d, q, id, k);
    }
  }

  /** A repeated match of an id increments its count and keeps its first query. */
  lemma CountsRepeat(ms: seq<(string, string)>, d: Dict<string, Pending>, q: string, id: string)
    requires CountsOf(ms, d) && id in d.vals
    ensures CountsOf(ms + [(id, q)], Bump(d, id))
  {
    assert CountOf(ms, d, id);
    FirstValueSnoc(ms, id, q);
    DedupSnoc(KeysOf(ms), id);
    forall k ensures CountOf(ms + [(id, q)], Bump(d, id), k) {
      CountOfRepeat(ms, d, q, id, k);
    }
  }

  /** An unmatched track is logged as unfound. */
  lemma LoggedMiss(missed: seq<string>, name: string, tally: Tally, t: Tally, entry: string)
    requires Logged(missed, name, tally, t)
    ensures Logged(missed + [entry], name, tally, RecordUnfound(t, name, entry))
  {
    var t' := RecordUnfound(t, name, entry);
    assert EntryOf(t', name).unfound == EntryOf(t, name).unfound + [entry];
  }

  lemma CountsSame(m1: seq<(string, string)>, m2: seq<(string, string)>, d1: Dict<string, Pending>, d2: Dict<string, Pending>)
    requires m1 == m2 && d1 == d2 && CountsOf(m1, d1)
    ensures CountsOf(m2, d2)
  {
  }

  lemma StepSpRepeatCounts(outs: seq<Outcome>, name: string, a: SpAssembly)
    requires |outs| > 0 && outs[|outs| - 1].Found? && outs[|outs| - 1].id in a.playlist.vals
    requires CountsOf(MatchPairs(outs[..|outs| - 1]), a.playlist)
    ensures CountsOf(MatchPairs(outs), StepSp(a, name, |outs| - 1, outs[|outs| - 1]).playlist)
  {
    var i := |outs| - 1;
    var ms := MatchPairs(outs[..i]);
    CountsRepeat(ms, a.playlist, outs[i].query, outs[i].id);
    CountsSame(ms + [(outs[i].id, outs[i].query)], MatchPairs(outs), Bump(a.playlist, outs[i].id), StepSp(a, name, i, outs[i]).playlist);
  }

  lemma StepSpNewCounts(outs: seq<Outcome>, name: string, a: SpAssembly)
    requires |outs| > 0 && outs[|outs| - 1].Found? && outs[|outs| - 1].id !in a.playlist.vals
    requires CountsOf(MatchPairs(outs[..|outs| - 1]), a.playlist)
    ensures CountsOf(MatchPairs(outs), StepSp(a, name, |outs| - 1, outs[|outs| - 1]).playlist)
  {
    var i := |outs| - 1;
    var ms := MatchPairs(outs[..i]);
    CountsNew(ms, a.playlist, outs[i].query, outs[i].id);
    CountsSame(ms + [(outs[i].id, outs[i].query)], MatchPairs(outs),
               a.playlist.Put(outs[i].id, Pending(outs[i].query, 1)), StepSp(a, name, i, outs[i]).playlist);
  }

  /** The id/count map the loop leaves is built from the matches alone. */
  lemma StepSpCounts(outs: seq<Outcome>, name: string, a: SpAssembly)
    requires |outs| > 0
    requires CountsOf(MatchPairs(outs[..|outs| - 1]), a.playlist)
    ensures CountsOf(MatchPairs(outs), StepSp(a, name, |outs| - 1, outs[|outs| - 1]).playlist)
  {
    var o := outs[|outs| - 1];
    if !o.Found? {
      CountsSame(MatchPairs(outs[..|outs| - 1]), MatchPairs(outs), a.playlist, StepSp(a, name, |outs| - 1, o).playlist);
    } else if o.id in a.playlist.vals {
      StepSpRepeatCounts(outs, name, a);
    } else {
      StepSpNewCounts(outs, name, a);
    }
  }

  /** The tally the loop leaves is built from the unmatched tracks alone. */
  lemma StepSpLogs(outs: seq<Outcome>, name: string, tally: Tally, a: SpAssembly)
    requires |outs| > 0 && a.playlist.Valid()
    requires Logged(MissLabels(outs[..|outs| - 1]), name, tally, a.tally)
    ensures Logged(MissLabels(outs), name, tally, StepSp(a, name, |outs| - 1, outs[|outs| - 1]).tally)
  {
    var i := |outs| - 1;
    var o := outs[i];
    var missed := MissLabels(outs[..i]);
    if !o.Found? {
      assert MissLabels(outs) == missed + [MissLabel(i, o)];
      LoggedMiss(missed, name, tally, a.tally, MissLabel(i, o));
    } else {
      assert MissLabels(outs) == missed;
    }
  }

  /**
   * The loop of `convert_YT_to_SP_playlist` over the outcomes of a whole playlist, each iteration
   * counting a match into the id/count map or logging a miss into the tally.
   */
  function CountMatches(outs: seq<Outcome>, name: string, tally: Tally): (a: SpAssembly)
    ensures a.playlist.Valid()
  {
    if outs == [] then SpAssembly(Empty(), tally)
    else StepSp(CountMatches(outs[..|outs| - 1], name, tally), name, |outs| - 1, outs[|outs| - 1])
  }

  /**
   * The id/count map of the loop: the matched ids in first-match order, each with the query of its
   * first match and its number of matches.
   */
  lemma {:induction false} CountMatchesCounts(outs: seq<Outcome>, name: string, tally: Tally)
    ensures CountsOf(MatchPairs(outs), CountMatches(outs, name, tally).playlist)
  {
    if outs != [] {
      CountMatchesCounts(outs[..|outs| - 1], name, tally);
      StepSpCounts(outs, name, CountMatches(outs[..|outs| - 1], name, tally));
    }
  }

  /** The tally of the loop: the unmatched tracks are logged as unfound in order, under the playlist's name only. */
  lemma {:induction false} CountMatchesLogs(outs: seq<Outcome>, name: string, tally: Tally)
    ensures Logged(MissLabels(outs), name, tally, CountMatches(outs, name, tally).tally)
  {
    if outs != [] {
      CountMatchesLogs(outs[..|outs| - 1], name, tally);
      StepSpLogs(outs, name, tally, CountMatches(outs[..|outs| - 1], name, tally));
    }
  }

  // Creating the Spotify playlist

  /** The Spotify API calls `create_SP_playlist` makes, in order. */
  datatype SpCall = NewSpPlaylist(title: string, description: string) | AddTracks(ids: seq<string>)

  const CopiedFromYouTube := " (copied from YouTube Music)"

  /** The most track ids one `user_playlist_add_tracks` call takes. */
  const BatchSize: nat := 100

  /** One `user_playlist_add_tracks` call per batch, in order. */
  function AddCalls(batches: seq<seq<string>>): (calls: seq<SpCall>)
    ensures |calls| == |batches|
    ensures forall i :: 0 <= i < |batches| ==> calls[i] == AddTracks(batches[i])
  {
    seq(|batches|, i requires 0 <= i < |batches| => AddTracks(batches[i]))
  }

  /** The track ids a sequence of calls adds, in order. */
  function SentSpIds(calls: seq<SpCall>): seq<string>
  {
    if calls == [] then [] else (if calls[0].AddTracks? then calls[0].ids else []) + SentSpIds(calls[1..])
  }

  lemma {:induction false} SentSpIdsAppend(a: seq<SpCall>, b: seq<SpCall>)
    ensures SentSpIds(a + b) == SentSpIds(a) + SentSpIds(b)
  {
    if a == [] {
      assert a + b == b;
    } else {
      assert (a + b)[1..] == a[1..] + b;
      SentSpIdsAppend(a[1..], b);
    }
  }

  /** Sending the batches adds exactly their concatenation. */
  lemma {:induction false} SentAddCalls(batches: seq<seq<string>>)
    ensures SentSpIds(AddCalls(batches)) == Flatten(batches)
  {
    if batches != [] {
      assert AddCalls(batches)[1..] == AddCalls(batches[1..]);
      SentAddCalls(batches[1..]);
    }
  }

  /** The number of extra copies of an id matched `count` times: `range(count - 1)` when `count > 1`. */
  function Extra(count: nat): (n: nat)
    ensures count >= 1 ==> n + 1 == count
  {
    if count > 1 then count - 1 else 0
  }

  /**
   * The duplicates of the id/count map, in key order: each id once per extra match, logged with
   * the query of its first match.
   */
  function DupeEntries(keys: seq<string>, vals: map<string, Pending>): (ds: seq<Dupe>)
    requires forall k :: k in keys ==> k in vals
    ensures forall i :: 0 <= i < |ds| ==> ds[i].id in keys && ds[i].query == vals[ds[i].id].fullQuery
  {
    if keys == [] then []
    else
      var e := vals[keys[0]];
      Copies(Dupe(e.fullQuery, keys[0]), Extra(e.count)) + DupeEntries(keys[1..], vals)
  }

  lemma {:induction false} DupeIdsCopies(q: string, id: string, n: nat)
    ensures DupeIds(Copies(Dupe(q, id), n)) == Copies(id, n)
  {
    if n > 0 {
      DupeIdsCopies(q, id, n - 1);
      assert Copies(Dupe(q, id), n) == [Dupe(q, id)] + Copies(Dupe(q, id), n - 1);
    }
  }

  lemma DupeIdsAppend(a: seq<Dupe>, b: seq<Dupe>)
    ensures DupeIds(a + b) == DupeIds(a) + DupeIds(b)
  {
  }

  /** A duplicate-free key list yields each of its ids once per extra match, and no other id. */
  lemma {:induction false} DupeEntriesCount(keys: seq<string>, vals: map<string, Pending>, x: string)
    requires NoDup(keys) && forall k :: k in keys ==> k in vals
    ensures multiset(DupeIds(DupeEntries(keys, vals)))[x] == if x in keys then Extra(vals[x].count) else 0
  {
    if keys != [] {
      var e := vals[keys[0]];
      var rest := keys[1..];
      assert NoDup(rest) by {
        forall i, j | 0 <= i < j < |rest| ensures rest[i] != rest[j] {
          assert rest[i] == keys[i + 1] && rest[j] == keys[j + 1];
        }
      }
      assert keys[0] !in rest by {
        forall i | 0 <= i < |rest| ensures rest[i] != keys[0] {
          assert rest[i] == keys[i + 1];
        }
      }
      DupeEntriesCount(rest, vals, x);
      DupeIdsAppend(Copies(Dupe(e.fullQuery, keys[0]), Extra(e.count)), DupeEntries(rest, vals));
      DupeIdsCopies(e.fullQuery, keys[0], Extra(e.count));
      assert keys == [keys[0]] + rest;
    }
  }

  /**
   * Every matched id is either a key of the map or one of its duplicates: the keys and the
   * duplicate ids together hold each matched id exactly as often as it was matched.
   */
  lemma DupesAndKeys(ms: seq<(string, string)>, d: Dict<string, Pending>)
    requires CountsOf(ms, d)
    ensures multiset(DupeIds(DupeEntries(d.keys, d.vals))) + multiset(d.keys) == multiset(KeysOf(ms))
  {
    forall x ensures (multiset(DupeIds(DupeEntries(d.keys, d.vals))) + multiset(d.keys))[x] == multiset(KeysOf(ms))[x] {
      DupeEntriesCount(d.keys, d.vals, x);
      NoDupMultiset(d.keys, x);
      assert CountOf(ms, d, x);
      if x in d.keys {
        assert x in KeysOf(ms);
      } else {
        assert x !in KeysOf(ms);
      }
    }
  }

  /** Log the duplicates `ds` under `playlist`, creating its entry only when there is one to log. */
  function AppendDupes(t: Tally, playlist: string, ds: seq<Dupe>): (t': Tally)
    ensures t'.Keys == if ds == [] then t.Keys else t.Keys + {playlist}
    ensures EntryOf(t', playlist) == EntryOf(t, playlist).(dupes := EntryOf(t, playlist).dupes + ds)
    ensures forall p :: p in t && p != playlist ==> t'[p] == t[p]
  {
    if ds == [] then
      assert EntryOf(t, playlist).dupes + ds == EntryOf(t, playlist).dupes;
      t
    else
      var e := EntryOf(t, playlist);
      t[playlist := e.(dupes := e.dupes + ds)]
  }

  /** The playlist title and the track batches `create_SP_playlist` sends before handling duplicates. */
  function KeyCalls(name: string, d: Dict<string, Pending>, keepDupes: bool): (calls: seq<SpCall>)
    ensures |calls| >= 2 && calls[0] == NewSpPlaylist(name + CopiedFromYouTube, Description(keepDupes))
    ensures forall i :: 1 <= i < |calls| ==> calls[i].AddTracks? && |calls[i].ids| <= BatchSize
    ensures SentSpIds(calls) == d.keys
  {
    var batches := Chunks(d.keys, BatchSize);
    var calls := [NewSpPlaylist(name + CopiedFromYouTube, Description(keepDupes))] + AddCalls(batches);
    assert calls[1..] == AddCalls(batches);
    SentAddCalls(batches);
    calls
  }

  /** How `create_SP_playlist` ends as written: normally, or with a `KeyError` after some calls. */
  datatype SpRunAsWritten = Completed(calls: seq<SpCall>, tally: Tally) | KeyErrorAfter(sent: seq<SpCall>)

  /**
   * `create_SP_playlist` as written. Without `keep_dupes`, the first duplicate raises `KeyError`:
   * it reads the key `'sp_query'`, which the entries of the id/count map do not have (they hold
   * `'full_sp_query'`). With `keep_dupes`, the batching loop tests the length of the key list,
   * already at most 100, instead of that of the duplicates, so every duplicate goes in one call.
   */
  function CreateSpPlaylistAsWritten(name: string, d: Dict<string, Pending>, keepDupes: bool, tally: Tally): SpRunAsWritten
    requires d.Valid()
  {
    var base := KeyCalls(name, d, keepDupes);
    var dupes := DupeIds(DupeEntries(d.keys, d.vals));
    if dupes == [] then Completed(base, tally)
    else if !keepDupes then KeyErrorAfter(base)
    else Completed(base + [AddTracks(dupes)], tally)
  }

  /** As written, the run fails exactly when duplicates are to be left out and there are some. */
  lemma DupesCrashAsWritten(name: string, d: Dict<string, Pending>, keepDupes: bool, tally: Tally)
    requires d.Valid()
    ensures CreateSpPlaylistAsWritten(name, d, keepDupes, tally).KeyErrorAfter? <==>
              !keepDupes && exists k :: k in d.vals && d.vals[k].count > 1
  {
    var dupes := DupeIds(DupeEntries(d.keys, d.vals));
    if exists k :: k in d.vals && d.vals[k].count > 1 {
      var k :| k in d.vals && d.vals[k].count > 1;
      DupeEntriesCount(d.keys, d.vals, k);
      assert k in multiset(dupes);
    } else if dupes != [] {
      assert dupes[0] in d.keys;
      DupeEntriesCount(d.keys, d.vals, dupes[0]);
    }
  }

  /**
   * As written, an id matched `n + 1` times, with `n` over the batch limit, sends its `n`
   * duplicates in one call (102 matches give a call of 101 ids).
   */
  lemma DupesOneBatchAsWritten(n: nat)
    requires n > BatchSize
    ensures var d := Dict(["a"], map["a" := Pending("x", n + 1)]);
            var r := CreateSpPlaylistAsWritten("Mix", d, true, map[]);
            r.Completed? && r.calls[|r.calls| - 1] == AddTracks(Copies("a", n)) && |r.calls[|r.calls| - 1].ids| > BatchSize
  {
    var d := Dict(["a"], map["a" := Pending("x", n + 1)]);
    assert d.keys[1..] == [];
    DupeIdsCopies("x", "a", n);
    assert DupeEntries(d.keys, d.vals) == Copies(Dupe("x", "a"), n) + DupeEntries([], d.vals);
  }

  /** What `create_SP_playlist` does, with both duplicate bugs corrected. */
  datatype SpRun = SpRun(calls: seq<SpCall>, tally: Tally)

  /** The duplicates sent in batches of at most 100; no call at all when there are none. */
  function DupeCalls(dupes: seq<string>): (calls: seq<SpCall>)
    ensures forall i :: 0 <= i < |calls| ==> calls[i].AddTracks? && |calls[i].ids| <= BatchSize
    ensures SentSpIds(calls) == dupes
  {
    if dupes == [] then []
    else
      var batches := Chunks(dupes, BatchSize);
      SentAddCalls(batches);
      AddCalls(batches)
  }

  /**
   * `create_SP_playlist` as intended: the keys in batches of at most 100; then, with
   * `keep_dupes`, the duplicates in batches of at most 100, and otherwise each duplicate logged
   * under the playlist's name with the query of its first match.
   */
  function CreateSpPlaylist(name: string, d: Dict<string, Pending>, keepDupes: bool, tally: Tally): (r: SpRun)
    requires d.Valid()
    ensures |r.calls| >= 2 && r.calls[0] == NewSpPlaylist(name + CopiedFromYouTube, Description(keepDupes))
    ensures forall i :: 1 <= i < |r.calls| ==> r.calls[i].AddTracks? && |r.calls[i].ids| <= BatchSize
    ensures SentSpIds(r.calls) == d.keys + (if keepDupes then DupeIds(DupeEntries(d.keys, d.vals)) else [])
    ensures keepDupes ==> r.tally == tally
    ensures !keepDupes ==> r.tally == AppendDupes(tally, name, DupeEntries(d.keys, d.vals))
  {
    var base := KeyCalls(name, d, keepDupes);
    var ds := DupeEntries(d.keys, d.vals);
    if !keepDupes then
      assert d.keys + [] == d.keys;
      SpRun(base, AppendDupes(tally, name, ds))
    else
      var extra := DupeCalls(DupeIds(ds));
      SentSpIdsAppend(base, extra);
      SpRun(base + extra, tally)
  }

  /** The corrected run never fails, and agrees with the code as written wherever that completes within the batch limit. */
  lemma CreateSpPlaylistAgrees(name: string, d: Dict<string, Pending>, keepDupes: bool, tally: Tally)
    requires d.Valid()
    requires |DupeIds(DupeEntries(d.keys, d.vals))| <= BatchSize
    ensures var w := CreateSpPlaylistAsWritten(name, d, keepDupes, tally);
            w.Completed? ==> w == Completed(CreateSpPlaylist(name, d, keepDupes, tally).calls, CreateSpPlaylist(name, d, keepDupes, tally).tally)
  {
    var dupes := DupeIds(DupeEntries(d.keys, d.vals));
    if keepDupes && dupes != [] {
      assert Chunks(dupes, BatchSize) == [dupes];
      assert DupeCalls(dupes) == [AddTracks(dupes)];
    }
  }

  // The whole conversion

  /** The counting loop over classified entries, then the creation of the Spotify playlist. */
  function RunOutcomes(outs: seq<Outcome>, name: string, keepDupes: bool, tally: Tally): SpRun
  {
    var a := CountMatches(outs, name, tally);
    CreateSpPlaylist(name, a.playlist, keepDupes, a.tally)
  }

  /** The counting loop, then `create_SP_playlist` as written. */
  function RunOutcomesAsWritten(outs: seq<Outcome>, name: string, keepDupes: bool, tally: Tally): SpRunAsWritten
  {
    var a := CountMatches(outs, name, tally);
    CreateSpPlaylistAsWritten(name, a.playlist, keepDupes, a.tally)
  }

  /**
   * As written, the whole conversion ends in `KeyError` exactly when duplicates are to be left out
   * and some Spotify track was matched by two playlist entries.
   */
  lemma RunCrashesAsWritten(outs: seq<Outcome>, name: string, keepDupes: bool, tally: Tally)
    ensures RunOutcomesAsWritten(outs, name, keepDupes, tally).KeyErrorAfter? <==>
              !keepDupes && |Dedup(FoundIds(outs))| < |FoundIds(outs)|
  {
    var a := CountMatches(outs, name, tally);
    assert RunOutcomesAsWritten(outs, name, keepDupes, tally) == CreateSpPlaylistAsWritten(name, a.playlist, keepDupes, a.tally);
    CountMatchesCounts(outs, name, tally);
    MatchPairsKeys(outs);
    DupesAndKeys(MatchPairs(outs), a.playlist);
    var dupes := DupeIds(DupeEntries(a.playlist.keys, a.playlist.vals));
    assert |multiset(dupes)| + |multiset(a.playlist.keys)| == |multiset(FoundIds(outs))|;
  }

  /**
   * `convert_YT_to_SP_playlist` for a playlist with the given entries: classify every entry, run
   * the counting loop, then create the Spotify playlist. `None` when an entry's unreadable
   * duration ends the conversion before anything is created.
   */
  function ConvertYtToSpPlaylist(tracks: seq<Option<YtTrack>>, search: string -> seq<SpTrack>, unit: real,
                                 penalty: real -> Penalty, name: string, keepDupes: bool, tally: Tally): (r: Option<SpRun>)
    ensures r.None? <==> exists i :: 0 <= i < |tracks| && ClassifyYt(tracks[i], search, unit, penalty).None?
    ensures r.Some? ==> ClassifyAllYt(tracks, search, unit, penalty).Some?
    ensures r.Some? ==> r.value == RunOutcomes(ClassifyAllYt(tracks, search, unit, penalty).value, name, keepDupes, tally)
  {
    match ClassifyAllYt(tracks, search, unit, penalty)
    case None => None
    case Some(outs) => Some(RunOutcomes(outs, name, keepDupes, tally))
  }

  /** Keeping duplicates sends every match as often as it occurred. */
  lemma CreateSpKeepsAll(ms: seq<(string, string)>, d: Dict<string, Pending>, name: string, t: Tally)
    requires CountsOf(ms, d)
    ensures multiset(SentSpIds(CreateSpPlaylist(name, d, true, t).calls)) == multiset(KeysOf(ms))
  {
    DupesAndKeys(ms, d);
  }

  /** Dropping duplicates sends each matched id once and logs the other matches, after any earlier log. */
  lemma CreateSpDropsRepeats(ms: seq<(string, string)>, d: Dict<string, Pending>, name: string, t: Tally)
    requires CountsOf(ms, d)
    ensures SentSpIds(CreateSpPlaylist(name, d, false, t).calls) == Dedup(KeysOf(ms))
    ensures var logged := EntryOf(CreateSpPlaylist(name, d, false, t).tally, name).dupes;
            && logged[..|EntryOf(t, name).dupes|] == EntryOf(t, name).dupes
            && multiset(DupeIds(logged[|EntryOf(t, name).dupes|..])) + multiset(Dedup(KeysOf(ms))) == multiset(KeysOf(ms))
  {
    DupesAndKeys(ms, d);
    var ds := DupeEntries(d.keys, d.vals);
    var logged := EntryOf(CreateSpPlaylist(name, d, false, t).tally, name).dupes;
    assert logged == EntryOf(t, name).dupes + ds;
    assert logged[|EntryOf(t, name).dupes|..] == ds;
  }

  /**
   * The duplicate policy end to end, for a playlist name not yet in the tally: keeping duplicates
   * sends every match exactly as often as it occurred; dropping them sends each matched id once,
   * in first-match order, and logs the other matches as duplicates. Either way every unmatched
   * entry is logged as unfound, in order, and no call adds more than 100 tracks.
   */
  lemma YtToSpDuplicatePolicy(outs: seq<Outcome>, name: string, keepDupes: bool, tally: Tally)
    requires name !in tally
    ensures keepDupes ==> multiset(SentSpIds(RunOutcomes(outs, name, keepDupes, tally).calls)) == multiset(FoundIds(outs))
    ensures !keepDupes ==> SentSpIds(RunOutcomes(outs, name, keepDupes, tally).calls) == Dedup(FoundIds(outs))
    ensures !keepDupes ==> multiset(DupeIds(EntryOf(RunOutcomes(outs, name, keepDupes, tally).tally, name).dupes))
                           + multiset(Dedup(FoundIds(outs))) == multiset(FoundIds(outs))
    ensures EntryOf(RunOutcomes(outs, name, keepDupes, tally).tally, name).unfound == MissLabels(outs)
    ensures var calls := RunOutcomes(outs, name, keepDupes, tally).calls;
            forall i :: 1 <= i < |calls| ==> |calls[i].ids| <= BatchSize
  {
    var a := CountMatches(outs, name, tally);
    var r := CreateSpPlaylist(name, a.playlist, keepDupes, a.tally);
    assert RunOutcomes(outs, name, keepDupes, tally) == r;
    CountMatchesLogs(outs, name, tally);
    assert EntryOf(a.tally, name) == NotAdded(MissLabels(outs), []);
    CountMatchesCounts(outs, name, tally);
    MatchPairsKeys(outs);
    if keepDupes {
      CreateSpKeepsAll(MatchPairs(outs), a.playlist, name, a.tally);
    } else {
      CreateSpDropsRepeats(MatchPairs(outs), a.playlist, name, a.tally);
      assert EntryOf(r.tally, name).dupes == DupeEntries(a.playlist.keys, a.playlist.vals);
    }
  }

  /**
   * `convert_YT_liked_albums`: every liked album is searched for as "<title> by <artist>" and the
   * best-scoring Spotify album liked; albums without results are reported by that query. `yearKey`
   * cuts the year text out of each result's release date: the program cuts
   * `SpotifyYearKeyAsWritten`, the corrected conversion `SpotifyYearKey`.
   */
  function ConvertYtLikedAlbums(albums: seq<YtAlbum>, search: string -> seq<SpAlbum>, unit: int,
                                yearKey: string -> string): (r: AlbumRun)
    ensures |r.liked| + |r.notAdded| == |albums|
    ensures forall i :: 0 <= i < |albums| && search(albums[i].title + " by " + albums[i].artist) == [] ==>
              albums[i].title + " by " + albums[i].artist in r.notAdded
  {
    var targets := seq(|albums|, i requires 0 <= i < |albums| => AlbumTarget(albums[i].title, albums[i].artist, albums[i].year));
    var candidates := (q: string) =>
      seq(|search(q)|, j requires 0 <= j < |search(q)| =>
            AlbumCandidate(search(q)[j].id, search(q)[j].name, search(q)[j].artist, yearKey(search(q)[j].releaseDate)));
    assert forall i :: 0 <= i < |albums| ==> AlbumQuery(targets[i]) == albums[i].title + " by " + albums[i].artist;
    EmptySearchesReported(targets, candidates, unit);
    ConvertLikedAlbums(targets, candidates, unit)
  }
}
