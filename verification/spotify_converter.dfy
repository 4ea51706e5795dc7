/**
 * Spotify to YouTube Music (SpotifyConverterClass.py): the two search queries per track, the
 * filtering of their results, the assembly of a duplicate-free playlist with a tally of what was
 * left out, playlist creation with the duplicate policy, and liked-album conversion.
 */
module SpotifyConverter {
  import opened Results
  import opened Text
  import opened Seqs
  import opened Converter
  import opened Albums
  import opened Ranking
  import opened PyDict

  // Queries and search results

  /** The queries sent to YouTube Music for one Spotify song: `"title artist"`, then `"title by artist"`. */
  function YtQueries(info: SongInfo): (qs: seq<string>)
    ensures |qs| == 2
  {
    [info.title + " " + info.artist, info.title + " by " + info.artist]
  }

  /** The two queries differ, and each starts with the title and ends with the artist. */
  lemma YtQueriesShape(info: SongInfo)
    ensures YtQueries(info)[0] != YtQueries(info)[1]
    ensures forall k :: 0 <= k < 2 ==> YtQueries(info)[k][..|info.title|] == info.title
    ensures forall k :: 0 <= k < 2 ==> YtQueries(info)[k][|YtQueries(info)[k]| - |info.artist|..] == info.artist
    ensures |YtQueries(info)[1]| == |YtQueries(info)[0]| + 3
  {
    var qs := YtQueries(info);
    assert |qs[0]| != |qs[1]|;
  }

  /** A YouTube Music search result of a kind worth matching: a song or a video. */
  predicate Playable(t: YtTrack)
  {
    t.resultType == "video" || t.resultType == "song"
  }

  /** The non-null results that are songs or videos, in search order. */
  function KeepPlayable(raw: seq<Option<YtTrack>>): (kept: seq<YtTrack>)
    ensures |kept| <= |raw|
    ensures forall t :: t in kept <==> Playable(t) && Some(t) in raw
  {
    if raw == [] then []
    else
      var init := raw[..|raw| - 1];
      var last := raw[|raw| - 1];
      assert raw == init + [last];
      KeepPlayable(init) + (if last.Some? && Playable(last.value) then [last.value] else [])
  }

  /** Filtering keeps order: the filter of a concatenation is the concatenation of the filters. */
  lemma {:induction false} KeepPlayableAppend(a: seq<Option<YtTrack>>, b: seq<Option<YtTrack>>)
    ensures KeepPlayable(a + b) == KeepPlayable(a) + KeepPlayable(b)
  {
    if b != [] {
      var init := b[..|b| - 1];
      KeepPlayableAppend(a, init);
      assert (a + b)[..|a + b| - 1] == a + init;
      assert (a + b)[|a + b| - 1] == b[|b| - 1];
    } else {
      assert a + b == a;
    }
  }

  /** Normalise every kept result; `None` when one of them has an unreadable duration. */
  function NormalizeAll(ts: seq<YtTrack>): (r: Option<seq<SongInfo>>)
    ensures r.None? <==> exists j :: 0 <= j < |ts| && YtSongInfo(ts[j]).None?
    ensures r.Some? ==> |r.value| == |ts| && forall j :: 0 <= j < |ts| ==> Some(r.value[j]) == YtSongInfo(ts[j])
  {
    if ts == [] then Some([])
    else
      match YtSongInfo(ts[0])
      case None => None
      case Some(info) =>
        match NormalizeAll(ts[1..])
        case None =>
          assert forall j :: 0 <= j < |ts| - 1 ==> ts[1..][j] == ts[j + 1];
          None
        case Some(rest) => Some([info] + rest)
  }

  /**
   * `get_multiple_YT_search_results`: one list per query, in query order, of the normalised
   * song and video results of that query, in search order.
   */
  function YtSearchResults(info: SongInfo, search: string -> seq<Option<YtTrack>>): (r: Option<seq<seq<SongInfo>>>)
    ensures r.Some? ==> |r.value| == 2
    ensures r.Some? ==> forall k :: 0 <= k < 2 ==> Some(r.value[k]) == NormalizeAll(KeepPlayable(search(YtQueries(info)[k])))
    ensures r.None? <==> exists k :: 0 <= k < 2 && NormalizeAll(KeepPlayable(search(YtQueries(info)[k]))).None?
  {
    var qs := YtQueries(info);
    match (NormalizeAll(KeepPlayable(search(qs[0]))), NormalizeAll(KeepPlayable(search(qs[1]))))
    case (Some(first), Some(second)) => Some([first, second])
    case _ => None
  }

  // Assembly

  /** The text a Spotify track is reported under: the quoted raw name, `by`, the raw artist. */
  function FullYtQuery(song: SpTrack): string
  {
    "\"" + song.name + "\" by " + song.artist
  }

  /**
   * What happens to one Spotify playlist entry: a null entry is removed; otherwise the best-match
   * selector (not part of this model, passed in) is asked, and a missing or empty id means not found.
   */
  function ClassifySp(track: Option<SpTrack>, select: SongInfo -> Option<string>): (o: Outcome)
    ensures track.None? <==> o.Removed?
    ensures o.Found? ==> o.id != "" && Some(o.id) == select(SpSongInfo(track.value))
    ensures o.NotFound? ==> select(SpSongInfo(track.value)) in {None, Some("")}
    ensures !o.Removed? ==> o.query == FullYtQuery(track.value)
  {
    match track
    case None => Removed
    case Some(song) =>
      var q := FullYtQuery(song);
      match select(SpSongInfo(song))
      case Some(id) => if id != "" then Found(q, id) else NotFound(q)
      case None => NotFound(q)
  }

  /** The playlist under construction and the tally. */
  datatype Assembly = Assembly(playlist: seq<string>, tally: Tally)

  /** The duplicate entries a run added for `name`. */
  function NewDupes(before: Tally, after: Tally, name: string): seq<Dupe>
    requires |EntryOf(before, name).dupes| <= |EntryOf(after, name).dupes|
  {
    EntryOf(after, name).dupes[|EntryOf(before, name).dupes|..]
  }

  /** One iteration of the loop of `convert_SP_to_YT_playlist`, for the track at position `index`. */
  function StepYt(a: Assembly, name: string, index: nat, o: Outcome): Assembly
  {
    match o
    case Found(q, id) =>
      if id in a.playlist then a.(tally := RecordDupe(a.tally, name, q, id))
      else a.(playlist := a.playlist + [id])
    case _ => a.(tally := RecordMiss(a.tally, name, index, o))
  }

  /**
   * What the loop guarantees once it has matched the ids `found` and logged the unmatched tracks
   * under `missed`, starting from the tally `tally`.
   */
  ghost predicate AssembledFrom(found: seq<string>, missed: seq<string>, name: string, tally: Tally, a: Assembly)
  {
    && a.playlist == Dedup(found)
    && a.tally.Keys == (if |a.playlist| < |found| + |missed| then tally.Keys + {name} else tally.Keys)
    && (forall p :: p in tally && p != name ==> a.tally[p] == tally[p])
    && EntryOf(a.tally, name).unfound == EntryOf(tally, name).unfound + missed
    && EntryOf(tally, name).dupes <= EntryOf(a.tally, name).dupes
    && multiset(DupeIds(NewDupes(tally, a.tally, name))) + multiset(a.playlist) == multiset(found)
  }

  lemma BaseAssembled(name: string, tally: Tally)
    ensures AssembledFrom([], [], name, tally, Assembly([], tally))
  {
    assert NewDupes(tally, tally, name) == [];
  }

  /** A matched id not yet in the playlist is appended to it. */
  lemma FoundNewKeeps(found: seq<string>, missed: seq<string>, o: Outcome, index: nat, name: string, tally: Tally, a: Assembly)
    requires o.Found? && o.id !in a.playlist
    requires AssembledFrom(found, missed, name, tally, a)
    ensures AssembledFrom(found + [o.id], missed, name, tally, StepYt(a, name, index, o))
  {
    DedupSnoc(found, o.id);
    assert |Dedup(found)| <= |found|;
  }

  /** A matched id already in the playlist is logged as a duplicate. */
  lemma FoundRepeatKeeps(found: seq<string>, missed: seq<string>, o: Outcome, index: nat, name: string, tally: Tally, a: Assembly)
    requires o.Found? && o.id in a.playlist
    requires AssembledFrom(found, missed, name, tally, a)
    ensures AssembledFrom(found + [o.id], missed, name, tally, StepYt(a, name, index, o))
  {
    DedupSnoc(found, o.id);
    RecordDupeGrows(tally, a.tally, name, o.query, o.id);
    assert |Dedup(found)| <= |found|;
  }

  /** A track that was not matched is logged as unfound. */
  lemma MissKeeps(found: seq<string>, missed: seq<string>, o: Outcome, index: nat, name: string, tally: Tally, a: Assembly)
    requires !o.Found?
    requires AssembledFrom(found, missed, name, tally, a)
    ensures AssembledFrom(found, missed + [MissLabel(index, o)], name, tally, StepYt(a, name, index, o))
  {
    var a' := StepYt(a, name, index, o);
    assert |Dedup(found)| <= |found|;
    assert EntryOf(a'.tally, name).unfound == EntryOf(a.tally, name).unfound + [MissLabel(index, o)];
    assert NewDupes(tally, a'.tally, name) == NewDupes(tally, a.tally, name);
  }

  /** Recording a duplicate extends the duplicates a run added by exactly that entry. */
  lemma RecordDupeGrows(before: Tally, t: Tally, name: string, q: string, id: string)
    requires EntryOf(before, name).dupes <= EntryOf(t, name).dupes
    ensures RecordDupe(t, name, q, id).Keys == t.Keys + {name}
    ensures EntryOf(before, name).dupes <= EntryOf(RecordDupe(t, name, q, id), name).dupes
    ensures DupeIds(NewDupes(before, RecordDupe(t, name, q, id), name)) == DupeIds(NewDupes(before, t, name)) + [id]
  {
    var t' := RecordDupe(t, name, q, id);
    assert EntryOf(t', name).dupes == EntryOf(t, name).dupes + [Dupe(q, id)];
    assert NewDupes(before, t', name) == NewDupes(before, t, name) + [Dupe(q, id)];
  }

  /**
   * The loop of `convert_SP_to_YT_playlist` over the outcomes of a whole playlist: the playlist
   * holds each matched id once, in first-match order; the unmatched tracks are logged as unfound
   * in order, and the repeated matches as duplicates, under the playlist's name only.
   */
  function AssembleYtPlaylist(outs: seq<Outcome>, name: string, tally: Tally): (a: Assembly)
    ensures AssembledFrom(FoundIds(outs), MissLabels(outs), name, tally, a)
  {
    if outs == [] then
      BaseAssembled(name, tally);
      Assembly([], tally)
    else
      var a := AssembleYtPlaylist(outs[..|outs| - 1], name, tally);
      StepYtKeeps(outs, name, tally, a);
      StepYt(a, name, |outs| - 1, outs[|outs| - 1])
  }

  /**
   * The repeated matches, in playlist order: every match whose id an earlier entry already
   * matched, with its own query.
   */
  function RepeatMatches(outs: seq<Outcome>): (ds: seq<Dupe>)
    ensures |ds| <= |outs|
  {
    if outs == [] then []
    else
      var i := |outs| - 1;
      var o := outs[i];
      RepeatMatches(outs[..i]) + (if o.Found? && o.id in FoundIds(outs[..i]) then [Dupe(o.query, o.id)] else [])
  }

  /** One loop iteration logs its track as a duplicate exactly when it repeats an earlier match. */
  lemma StepYtDupes(outs: seq<Outcome>, name: string, tally: Tally, a: Assembly)
    requires |outs| > 0
    requires a.playlist == Dedup(FoundIds(outs[..|outs| - 1]))
    requires EntryOf(a.tally, name).dupes == EntryOf(tally, name).dupes + RepeatMatches(outs[..|outs| - 1])
    ensures EntryOf(StepYt(a, name, |outs| - 1, outs[|outs| - 1]).tally, name).dupes
            == EntryOf(tally, name).dupes + RepeatMatches(outs)
  {
    var o := outs[|outs| - 1];
    if o.Found? && o.id in FoundIds(outs[..|outs| - 1]) {
      StepRepeatDupes(outs, name, tally, a);
    } else if o.Found? {
      StepNewDupes(outs, name, tally, a);
    } else {
      StepMissDupes(outs, name, tally, a);
    }
  }

  lemma StepRepeatDupes(outs: seq<Outcome>, name: string, tally: Tally, a: Assembly)
    requires |outs| > 0
    requires outs[|outs| - 1].Found? && outs[|outs| - 1].id in FoundIds(outs[..|outs| - 1])
    requires a.playlist == Dedup(FoundIds(outs[..|outs| - 1]))
    requires EntryOf(a.tally, name).dupes == EntryOf(tally, name).dupes + RepeatMatches(outs[..|outs| - 1])
    ensures EntryOf(StepYt(a, name, |outs| - 1, outs[|outs| - 1]).tally, name).dupes
            == EntryOf(tally, name).dupes + RepeatMatches(outs)
  {
    var i := |outs| - 1;
    var o := outs[i];
    var d := Dupe(o.query, o.id);
    var before := EntryOf(tally, name).dupes + RepeatMatches(outs[..i]);
    assert RepeatMatches(outs) == RepeatMatches(outs[..i]) + [d];
    var t' := StepYt(a, name, i, o).tally;
    assert t' == RecordDupe(a.tally, name, o.query, o.id);
    assert t'[name].dupes == before + [d];
    assert before + [d] == EntryOf(tally, name).dupes + RepeatMatches(outs);
  }

  lemma StepNewDupes(outs: seq<Outcome>, name: string, tally: Tally, a: Assembly)
    requires |outs| > 0
    requires outs[|outs| - 1].Found? && outs[|outs| - 1].id !in FoundIds(outs[..|outs| - 1])
    requires a.playlist == Dedup(FoundIds(outs[..|outs| - 1]))
    requires EntryOf(a.tally, name).dupes == EntryOf(tally, name).dupes + RepeatMatches(outs[..|outs| - 1])
    ensures EntryOf(StepYt(a, name, |outs| - 1, outs[|outs| - 1]).tally, name).dupes
            == EntryOf(tally, name).dupes + RepeatMatches(outs)
  {
    var i := |outs| - 1;
    assert RepeatMatches(outs) == RepeatMatches(outs[..i]) by {
      assert RepeatMatches(outs) == RepeatMatches(outs[..i]) + [];
    }
    assert StepYt(a, name, i, outs[i]).tally == a.tally by {
      assert outs[i].id !in a.playlist;
    }
  }

  lemma StepMissDupes(outs: seq<Outcome>, name: string, tally: Tally, a: Assembly)
    requires |outs| > 0 && !outs[|outs| - 1].Found?
    requires EntryOf(a.tally, name).dupes == EntryOf(tally, name).dupes + RepeatMatches(outs[..|outs| - 1])
    ensures EntryOf(StepYt(a, name, |outs| - 1, outs[|outs| - 1]).tally, name).dupes
            == EntryOf(tally, name).dupes + RepeatMatches(outs)
  {
    var i := |outs| - 1;
    assert RepeatMatches(outs) == RepeatMatches(outs[..i]) by {
      assert RepeatMatches(outs) == RepeatMatches(outs[..i]) + [];
    }
    assert EntryOf(StepYt(a, name, i, outs[i]).tally, name).dupes == EntryOf(a.tally, name).dupes by {
      assert StepYt(a, name, i, outs[i]).tally == RecordMiss(a.tally, name, i, outs[i]);
    }
  }

  /**
   * The duplicates the loop logs under the playlist's name are exactly its repeated matches, in
   * playlist order, each with the query of the repeating track, after any entries logged before.
   */
  lemma {:induction false} AssembleYtDupes(outs: seq<Outcome>, name: string, tally: Tally)
    ensures EntryOf(AssembleYtPlaylist(outs, name, tally).tally, name).dupes == EntryOf(tally, name).dupes + RepeatMatches(outs)
  {
    if outs == [] {
      assert EntryOf(tally, name).dupes + [] == EntryOf(tally, name).dupes;
    } else {
      var init := outs[..|outs| - 1];
      AssembleYtDupes(init, name, tally);
      StepYtDupes(outs, name, tally, AssembleYtPlaylist(init, name, tally));
    }
  }

  /** One loop iteration keeps the loop's guarantee, whatever the outcome of its track. */
  lemma StepYtKeeps(outs: seq<Outcome>, name: string, tally: Tally, a: Assembly)
    requires |outs| > 0
    requires AssembledFrom(FoundIds(outs[..|outs| - 1]), MissLabels(outs[..|outs| - 1]), name, tally, a)
    ensures AssembledFrom(FoundIds(outs), MissLabels(outs), name, tally, StepYt(a, name, |outs| - 1, outs[|outs| - 1]))
  {
    var o := outs[|outs| - 1];
    if !o.Found? {
      StepMissKeeps(outs, name, tally, a);
    } else if o.id in a.playlist {
      StepRepeatKeeps(outs, name, tally, a);
    } else {
      StepNewKeeps(outs, name, tally, a);
    }
  }

  lemma StepMissKeeps(outs: seq<Outcome>, name: string, tally: Tally, a: Assembly)
    requires |outs| > 0 && !outs[|outs| - 1].Found?
    requires AssembledFrom(FoundIds(outs[..|outs| - 1]), MissLabels(outs[..|outs| - 1]), name, tally, a)
    ensures AssembledFrom(FoundIds(outs), MissLabels(outs), name, tally, StepYt(a, name, |outs| - 1, outs[|outs| - 1]))
  {
    var i := |outs| - 1;
    var found := FoundIds(outs[..i]);
    var missed := MissLabels(outs[..i]);
    MissKeeps(found, missed, outs[i], i, name, tally, a);
    AssembledSame(found, missed + [MissLabel(i, outs[i])], FoundIds(outs), MissLabels(outs), name, tally, StepYt(a, name, i, outs[i]));
  }

  lemma StepRepeatKeeps(outs: seq<Outcome>, name: string, tally: Tally, a: Assembly)
    requires |outs| > 0 && outs[|outs| - 1].Found? && outs[|outs| - 1].id in a.playlist
    requires AssembledFrom(FoundIds(outs[..|outs| - 1]), MissLabels(outs[..|outs| - 1]), name, tally, a)
    ensures AssembledFrom(FoundIds(outs), MissLabels(outs), name, tally, StepYt(a, name, |outs| - 1, outs[|outs| - 1]))
  {
    var i := |outs| - 1;
    var found := FoundIds(outs[..i]);
    var missed := MissLabels(outs[..i]);
    FoundRepeatKeeps(found, missed, outs[i], i, name, tally, a);
    AssembledSame(found + [outs[i].id], missed, FoundIds(outs), MissLabels(outs), name, tally, StepYt(a, name, i, outs[i]));
  }

  lemma StepNewKeeps(outs: seq<Outcome>, name: string, tally: Tally, a: Assembly)
    requires |outs| > 0 && outs[|outs| - 1].Found? && outs[|outs| - 1].id !in a.playlist
    requires AssembledFrom(FoundIds(outs[..|outs| - 1]), MissLabels(outs[..|outs| - 1]), name, tally, a)
    ensures AssembledFrom(FoundIds(outs), MissLabels(outs), name, tally, StepYt(a, name, |outs| - 1, outs[|outs| - 1]))
  {
    var i := |outs| - 1;
    var found := FoundIds(outs[..i]);
    var missed := MissLabels(outs[..i]);
    FoundNewKeeps(found, missed, outs[i], i, name, tally, a);
    AssembledSame(found + [outs[i].id], missed, FoundIds(outs), MissLabels(outs), name, tally, StepYt(a, name, i, outs[i]));
  }

  lemma AssembledSame(f1: seq<string>, m1: seq<string>, f2: seq<string>, m2: seq<string>, name: string, tally: Tally, a: Assembly)
    requires f1 == f2 && m1 == m2
    requires AssembledFrom(f1, m1, name, tally, a)
    ensures AssembledFrom(f2, m2, name, tally, a)
  {
  }

  /** The outcomes of a whole Spotify playlist, track by track. */
  function ClassifyAll(tracks: seq<Option<SpTrack>>, select: SongInfo -> Option<string>): (outs: seq<Outcome>)
    ensures |outs| == |tracks|
    ensures forall i :: 0 <= i < |tracks| ==> outs[i] == ClassifySp(tracks[i], select)
  {
    seq(|tracks|, i requires 0 <= i < |tracks| => ClassifySp(tracks[i], select))
  }

  // Playlist creation

  /** A call made to YouTube Music. */
  datatype YtCall = NewPlaylist(title: string, description: string, videoIds: seq<string>)
                  | AddItems(videoIds: seq<string>)

  /** What the title of a copied playlist appends to the Spotify playlist's name. */
  const CopiedFromSpotify := " (copied from Spotify)"

  /** Every video id sent to YouTube Music, in call order. */
  function SentYtIds(calls: seq<YtCall>): seq<string>
  {
    if calls == [] then [] else calls[0].videoIds + SentYtIds(calls[1..])
  }

  /**
   * `create_YT_playlist`: create the playlist holding the assembled ids; then, only when
   * duplicates are kept and the tally lists some for this playlist, add their ids in one call,
   * in the order they were logged.
   */
  function CreateYtPlaylist(ids: seq<string>, name: string, keepDupes: bool, tally: Tally): (calls: seq<YtCall>)
    ensures 1 <= |calls| <= 2
    ensures calls[0] == NewPlaylist(name + CopiedFromSpotify, Description(keepDupes), ids)
    ensures |calls| == 2 <==> keepDupes && name in tally && tally[name].dupes != []
    ensures |calls| == 2 ==> calls[1] == AddItems(DupeIds(tally[name].dupes))
  {
    var create := NewPlaylist(name + CopiedFromSpotify, Description(keepDupes), ids);
    if name in tally && keepDupes && DupeIds(tally[name].dupes) != [] then
      [create, AddItems(DupeIds(tally[name].dupes))]
    else
      [create]
  }

  /** The calls made for one playlist and the tally afterwards. */
  datatype YtJob = YtJob(calls: seq<YtCall>, tally: Tally)

  /** `convert_SP_to_YT_playlist` for a playlist named `name` whose entries are `tracks`. */
  function ConvertSpToYtPlaylist(tracks: seq<Option<SpTrack>>, select: SongInfo -> Option<string>,
                                 name: string, keepDupes: bool, tally: Tally): YtJob
  {
    var a := AssembleYtPlaylist(ClassifyAll(tracks, select), name, tally);
    YtJob(CreateYtPlaylist(a.playlist, name, keepDupes, a.tally), a.tally)
  }

  /**
   * The duplicate policy end to end, for a playlist name not yet in the tally: the created
   * playlist never holds a duplicate; keeping duplicates sends every match exactly as often as it
   * occurred, and dropping them sends each matched id once, in first-occurrence order.
   */
  lemma SpToYtDuplicatePolicy(tracks: seq<Option<SpTrack>>, select: SongInfo -> Option<string>,
                              name: string, keepDupes: bool, tally: Tally)
    requires name !in tally
    ensures var job := ConvertSpToYtPlaylist(tracks, select, name, keepDupes, tally);
            NoDup(job.calls[0].videoIds)
    ensures var job := ConvertSpToYtPlaylist(tracks, select, name, keepDupes, tally);
            keepDupes ==> multiset(SentYtIds(job.calls)) == multiset(FoundIds(ClassifyAll(tracks, select)))
    ensures var job := ConvertSpToYtPlaylist(tracks, select, name, keepDupes, tally);
            !keepDupes ==> SentYtIds(job.calls) == Dedup(FoundIds(ClassifyAll(tracks, select)))
  {
    var outs := ClassifyAll(tracks, select);
    CreateYtPolicy(FoundIds(outs), MissLabels(outs), name, keepDupes, tally, AssembleYtPlaylist(outs, name, tally));
  }

  /**
   * For a playlist name not yet in the tally, the run logs exactly the repeated matches as its
   * duplicates; keeping duplicates sends the playlist's ids in first-match order and then the
   * repeated matches' ids, in playlist order.
   */
  lemma SpToYtRepeatsInOrder(tracks: seq<Option<SpTrack>>, select: SongInfo -> Option<string>,
                             name: string, keepDupes: bool, tally: Tally)
    requires name !in tally
    ensures var job := ConvertSpToYtPlaylist(tracks, select, name, keepDupes, tally);
            EntryOf(job.tally, name).dupes == RepeatMatches(ClassifyAll(tracks, select))
    ensures var job := ConvertSpToYtPlaylist(tracks, select, name, keepDupes, tally);
            var outs := ClassifyAll(tracks, select);
            keepDupes ==> SentYtIds(job.calls) == Dedup(FoundIds(outs)) + DupeIds(RepeatMatches(outs))
  {
    var outs := ClassifyAll(tracks, select);
    var a := AssembleYtPlaylist(outs, name, tally);
    AssembleYtDupes(outs, name, tally);
    assert EntryOf(a.tally, name).dupes == RepeatMatches(outs) by {
      assert [] + RepeatMatches(outs) == RepeatMatches(outs);
    }
    CreateYtSendsLog(a.playlist, name, keepDupes, a.tally);
  }

  /** Keeping duplicates, `create_YT_playlist` sends the playlist's ids and then every logged duplicate's id. */
  lemma CreateYtSendsLog(ids: seq<string>, name: string, keepDupes: bool, t: Tally)
    ensures keepDupes ==> SentYtIds(CreateYtPlaylist(ids, name, keepDupes, t)) == ids + DupeIds(EntryOf(t, name).dupes)
  {
    var calls := CreateYtPlaylist(ids, name, keepDupes, t);
    assert SentYtIds([calls[0]]) == ids;
    if |calls| == 2 {
      assert calls[1..][1..] == [];
      assert SentYtIds(calls) == ids + DupeIds(t[name].dupes);
    } else if keepDupes {
      assert calls == [calls[0]];
      assert DupeIds(EntryOf(t, name).dupes) == [];
    }
  }

  /** The duplicate policy of `create_YT_playlist`, for any assembly the loop can produce. */
  lemma CreateYtPolicy(found: seq<string>, missed: seq<string>, name: string, keepDupes: bool, tally: Tally, a: Assembly)
    requires name !in tally
    requires AssembledFrom(found, missed, name, tally, a)
    ensures NoDup(CreateYtPlaylist(a.playlist, name, keepDupes, a.tally)[0].videoIds)
    ensures keepDupes ==> multiset(SentYtIds(CreateYtPlaylist(a.playlist, name, keepDupes, a.tally))) == multiset(found)
    ensures !keepDupes ==> SentYtIds(CreateYtPlaylist(a.playlist, name, keepDupes, a.tally)) == Dedup(found)
  {
    var calls := CreateYtPlaylist(a.playlist, name, keepDupes, a.tally);
    assert NewDupes(tally, a.tally, name) == EntryOf(a.tally, name).dupes;
    assert SentYtIds([calls[0]]) == a.playlist;
    if |calls| == 2 {
      assert calls[1..][1..] == [];
      assert SentYtIds(calls) == a.playlist + DupeIds(a.tally[name].dupes);
    } else {
      assert calls == [calls[0]];
      if keepDupes {
        assert DupeIds(NewDupes(tally, a.tally, name)) == [];
      }
    }
  }

  /**
   * A three-entry playlist whose first and last entries match the same video and whose middle
   * entry was removed: the video is added once, the removed entry is logged as "Song #2", and the
   * repeat is logged as a duplicate under its query.
   */
  lemma AssembleRepeatScenario(q: string, id: string)
    ensures AssembleYtPlaylist([Found(q, id), Removed, Found(q, id)], "Mix", map[])
         == Assembly([id], map["Mix" := NotAdded(["Song #2"], [Dupe(q, id)])])
  {
    var outs := [Found(q, id), Removed, Found(q, id)];
    assert outs[..2] == [Found(q, id), Removed];
    assert outs[..2][..1] == [Found(q, id)];
    assert outs[..2][..1][..0] == [];
    var a0 := AssembleYtPlaylist([], "Mix", map[]);
    assert a0 == Assembly([], map[]);
    var a1 := AssembleYtPlaylist(outs[..2][..1], "Mix", map[]);
    assert a1 == Assembly([id], map[]);
    var a2 := AssembleYtPlaylist(outs[..2], "Mix", map[]);
    assert a2 == StepYt(a1, "Mix", 1, Removed);
    assert SongNumber(1) == "Song #2" by {
      assert Decimal(2) == "2";
    }
    assert a2 == Assembly([id], map["Mix" := NotAdded(["Song #2"], [])]);
  }

  /**
   * The same playlist end to end, with duplicates dropped: one playlist is created holding the
   * video once, described as not including duplicates.
   */
  lemma SpToYtScenario(song: SpTrack, select: SongInfo -> Option<string>)
    requires song == SpTrack("A", "X", "sp1", "B", 180000)
    requires select(SpSongInfo(song)) == Some("yt1")
    ensures var job := ConvertSpToYtPlaylist([Some(song), None, Some(song)], select, "Mix", false, map[]);
            && job.calls == [NewPlaylist("Mix" + CopiedFromSpotify, "Does not include duplicates", ["yt1"])]
            && job.tally == map["Mix" := NotAdded(["Song #2"], [Dupe("\"A\" by X", "yt1")])]
  {
    var q := FullYtQuery(song);
    assert q == "\"A\" by X";
    var outs := ClassifyAll([Some(song), None, Some(song)], select);
    assert outs == [Found(q, "yt1"), Removed, Found(q, "yt1")];
    AssembleRepeatScenario(q, "yt1");
    var a := AssembleYtPlaylist(outs, "Mix", map[]);
  }

  // Liked albums

  /**
   * `convert_SP_to_YT_liked_albums`: each liked Spotify album is searched for on YouTube Music as
   * `"name by artist"` and scored against its album results. `yearKey` cuts the year text out of
   * the release date: the program cuts `SpotifyYearKeyAsWritten`, the corrected conversion
   * `SpotifyYearKey`.
   */
  function ConvertSpLikedAlbums(albums: seq<SpAlbum>, search: string -> seq<YtAlbum>, yearKey: string -> string): (r: AlbumRun)
    ensures |r.liked| + |r.notAdded| == |albums|
    ensures forall i :: 0 <= i < |albums| && search(albums[i].name + " by " + albums[i].artist) == [] ==>
              albums[i].name + " by " + albums[i].artist in r.notAdded
  {
    var targets := SpAlbumTargets(albums, yearKey);
    var candidates := YtCandidates(search);
    assert forall i :: 0 <= i < |albums| ==> AlbumQuery(targets[i]) == albums[i].name + " by " + albums[i].artist;
    EmptySearchesReported(targets, candidates, SCORE);
    ConvertLikedAlbums(targets, candidates, SCORE)
  }

  /** The liked Spotify albums as the targets scored against, their year cut out by `yearKey`. */
  function SpAlbumTargets(albums: seq<SpAlbum>, yearKey: string -> string): (targets: seq<AlbumTarget>)
    ensures |targets| == |albums|
    ensures forall i :: 0 <= i < |albums| ==>
              targets[i] == AlbumTarget(albums[i].name, albums[i].artist, yearKey(albums[i].releaseDate))
  {
    seq(|albums|, i requires 0 <= i < |albums| =>
          AlbumTarget(albums[i].name, albums[i].artist, yearKey(albums[i].releaseDate)))
  }

  /** YouTube Music album results as scoring candidates: `browseId`, `title`, first artist and `year`. */
  function YtCandidates(search: string -> seq<YtAlbum>): (candidates: string -> seq<AlbumCandidate>)
    ensures forall q :: |candidates(q)| == |search(q)|
  {
    (q: string) =>
      seq(|search(q)|, j requires 0 <= j < |search(q)| =>
            AlbumCandidate(search(q)[j].browseId, search(q)[j].title, search(q)[j].artist, search(q)[j].year))
  }

  /** The two results searched for "Blue" by "Joni": a same-title album by another artist, then "Blue Deluxe" by "Joni". */
  function BlueResults(): seq<AlbumCandidate>
  {
    [AlbumCandidate("r2", "Blue", "Other", "1999"), AlbumCandidate("r1", "Blue Deluxe", "Joni", "2011")]
  }

  /** The same-title result by another artist meets two criteria, whatever the year text compared. */
  lemma OtherBlueScore(year: string)
    requires year != "1999"
    ensures AlbumScore(BlueResults()[0], AlbumTarget("Blue", "Joni", year), SCORE) == 200
  {
  }

  /** "Blue Deluxe" by "Joni" meets the artist and containment criteria, and the year one when it is compared. */
  lemma DeluxeBlueScore(year: string)
    ensures AlbumScore(BlueResults()[1], AlbumTarget("Blue", "Joni", year), SCORE) == if year == "2011" then 300 else 200
  {
    assert OccursAt("Blue", "Blue Deluxe", 0);
  }

  /** The scores of the two results: 200 for the other artist's album; 300 or 200 for "Blue Deluxe". */
  lemma BlueScores(year: string)
    requires year != "1999"
    ensures AlbumScores(BlueResults(), AlbumTarget("Blue", "Joni", year), SCORE)
            == [("r2", Fin(200.0)), ("r1", Fin(if year == "2011" then 300.0 else 200.0))]
  {
    OtherBlueScore(year);
    DeluxeBlueScore(year);
  }

  /** `max` over two equal scores returns the key inserted first. */
  lemma BestOfTie()
    ensures BestKey([("r2", Fin(200.0)), ("r1", Fin(200.0))]) == Some("r2")
  {
    var pairs := [("r2", Fin(200.0)), ("r1", Fin(200.0))];
    assert KeysOf(pairs) == ["r2", "r1"];
    assert Dedup(["r2", "r1"]) == ["r2", "r1"] by {
      assert ["r2", "r1"][..1] == ["r2"];
      assert ["r2"][..0] == [];
    }
  }

  /** `max` over two different scores returns the key of the higher one. */
  lemma BestOfHigher()
    ensures BestKey([("r2", Fin(200.0)), ("r1", Fin(300.0))]) == Some("r1")
  {
    var pairs := [("r2", Fin(200.0)), ("r1", Fin(300.0))];
    assert KeysOf(pairs) == ["r2", "r1"];
    assert LastValue(pairs, "r1") == Fin(300.0);
    assert LastValue(pairs, "r2") == Fin(200.0) by {
      assert pairs[..1] == [("r2", Fin(200.0))];
    }
  }

  /** With the three-character cut both results score two criteria, and the tie goes to the first listed. */
  lemma BluePickAsWritten()
    ensures PickAlbum(BlueResults(), AlbumTarget("Blue", "Joni", "201"), SCORE) == Some("r2")
  {
    BlueScores("201");
    BestOfTie();
  }

  /** With the year compared, "Blue Deluxe" meets three criteria and beats the same-title result. */
  lemma BluePickCorrected()
    ensures PickAlbum(BlueResults(), AlbumTarget("Blue", "Joni", "2011"), SCORE) == Some("r1")
  {
    BlueScores("2011");
    BestOfHigher();
  }

  /** The liked album "Blue" by "Joni", released 2011, searched for with the two results above. */
  function BlueAlbums(): seq<SpAlbum>
  {
    [SpAlbum("s", "Blue", "Joni", "2011-05-02")]
  }

  function BlueSearch(): string -> seq<YtAlbum>
  {
    (q: string) => [YtAlbum("r2", "Blue", "Other", "1999"), YtAlbum("r1", "Blue Deluxe", "Joni", "2011")]
  }

  /** The search, seen as scoring candidates, returns the two results for the album's query. */
  lemma BlueCandidates()
    ensures YtCandidates(BlueSearch())("Blue by Joni") == BlueResults()
  {
  }

  /** The liked album as a target: its query, and the year text each cut leaves. */
  lemma BlueTargets()
    ensures SpAlbumTargets(BlueAlbums(), SpotifyYearKeyAsWritten) == [AlbumTarget("Blue", "Joni", "201")]
    ensures SpAlbumTargets(BlueAlbums(), SpotifyYearKey) == [AlbumTarget("Blue", "Joni", "2011")]
    ensures AlbumQuery(AlbumTarget("Blue", "Joni", "201")) == "Blue by Joni"
    ensures AlbumQuery(AlbumTarget("Blue", "Joni", "2011")) == "Blue by Joni"
  {
    assert "2011-05-02"[..3] == "201";
    assert "2011-05-02"[..4] == "2011";
  }

  /**
   * As written, the three-character cut never matches the year, so the same-title album by
   * another artist ties with "Blue Deluxe" by "Joni" and is liked because it is listed first.
   */
  lemma YearCutAsWritten()
    ensures ConvertSpLikedAlbums(BlueAlbums(), BlueSearch(), SpotifyYearKeyAsWritten).liked == ["r2"]
  {
    var t := AlbumTarget("Blue", "Joni", "201");
    BlueCandidates();
    BlueTargets();
    BluePickAsWritten();
    LastAlbumStep([t], YtCandidates(BlueSearch()), SCORE);
  }

  /** With the four-character cut the year counts, and "Blue Deluxe" by "Joni" from 2011 is liked. */
  lemma YearCutCorrected()
    ensures ConvertSpLikedAlbums(BlueAlbums(), BlueSearch(), SpotifyYearKey).liked == ["r1"]
  {
    var t := AlbumTarget("Blue", "Joni", "2011");
    BlueCandidates();
    BlueTargets();
    BluePickCorrected();
    LastAlbumStep([t], YtCandidates(BlueSearch()), SCORE);
  }
}
