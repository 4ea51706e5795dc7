/**
 * The shared base of both converters (ConverterClass.py): the canonical song record built from
 * either catalog's raw track, the "H:M:S" duration parser, and the per-playlist tally of songs
 * that were not added.
 */
module Converter {
  import opened Results
  import opened Text

  /** Linear score step used when ranking album search results. */
  const SCORE: int := 100

  /** The fields of a raw Spotify track the converters read (`artist` is `artists[0].name`, `album` is `album.name`). */
  datatype SpTrack = SpTrack(name: string, artist: string, id: string, album: string, durationMs: int)

  /**
   * The fields of a raw YouTube Music track or search result the converters read; `album` is
   * `None` both when the key is missing and when it holds null.
   */
  datatype YtTrack = YtTrack(
    title: string, artist: string, videoId: string, album: Option<string>,
    duration: string, resultType: string, category: string, videoType: string)

  /**
   * The canonical song record. `resultType` and `topResult` exist only for records built from
   * YouTube Music (`None` for Spotify records, which have no such keys).
   */
  datatype SongInfo = SongInfo(
    title: string, artist: string, id: string, album: Option<string>,
    seconds: real, resultType: Option<string>, topResult: Option<bool>)

  // Durations

  function Pow60(e: nat): (p: int)
    ensures p >= 1
  {
    if e == 0 then 1 else 60 * Pow60(e - 1)
  }

  /** The first `k` terms of the sum `ds[i] * 60^(|ds|-1-i)` accumulated by the parser's loop. */
  function WeightedPrefix(ds: seq<int>, k: nat): int
    requires k <= |ds|
  {
    if k == 0 then 0 else WeightedPrefix(ds, k - 1) + ds[k - 1] * Pow60(|ds| - k)
  }

  /** The parser's result for the tokens `ds`: the sum over every token of `ds[i] * 60^(|ds|-1-i)`. */
  function PositionalSum(ds: seq<int>): int
  {
    WeightedPrefix(ds, |ds|)
  }

  /** Base-60 evaluation by Horner's rule, the reference reading of a duration. */
  function Horner(ds: seq<int>): int
  {
    if ds == [] then 0 else Horner(ds[..|ds| - 1]) * 60 + ds[|ds| - 1]
  }

  /** `[int(t) for t in tokens]`; `None` when some token is not an integer numeral. */
  function ParseTokens(tokens: seq<string>): (r: Option<seq<int>>)
    ensures r.Some? <==> forall i :: 0 <= i < |tokens| ==> ParseInt(tokens[i]).Some?
    ensures r.Some? ==> |r.value| == |tokens|
    ensures r.Some? ==> forall i :: 0 <= i < |tokens| ==> Some(r.value[i]) == ParseInt(tokens[i])
  {
    if tokens == [] then Some([])
    else
      match ParseInt(tokens[0])
      case None => None
      case Some(d) =>
        match ParseTokens(tokens[1..])
        case None => None
        case Some(ds) => Some([d] + ds)
  }

  /**
   * `get_sec_from_raw_duration`: split on ':', convert every token with `int`, and weigh the
   * tokens by powers of 60 from the right. `None` stands for the `ValueError` of a bad token.
   */
  function SecondsFromRawDuration(raw: string): Option<int>
  {
    match ParseTokens(Split(raw, ':'))
    case None => None
    case Some(ds) => Some(PositionalSum(ds))
  }

  lemma {:induction false} WeightedPrefixIsHorner(ds: seq<int>, k: nat)
    requires k <= |ds|
    ensures WeightedPrefix(ds, k) == Horner(ds[..k]) * Pow60(|ds| - k)
  {
    if k > 0 {
      WeightedPrefixIsHorner(ds, k - 1);
      var p := Pow60(|ds| - k);
      assert ds[..k][..k - 1] == ds[..k - 1];
      assert Horner(ds[..k]) == Horner(ds[..k - 1]) * 60 + ds[k - 1];
      assert Pow60(|ds| - (k - 1)) == 60 * p;
      calc {
        WeightedPrefix(ds, k);
        Horner(ds[..k - 1]) * (60 * p) + ds[k - 1] * p;
        { assert Horner(ds[..k - 1]) * (60 * p) == (Horner(ds[..k - 1]) * 60) * p; }
        (Horner(ds[..k - 1]) * 60 + ds[k - 1]) * p;
      }
    }
  }

  /** The parser's power-weighted sum is Horner's base-60 evaluation of the tokens. */
  lemma PositionalIsHorner(ds: seq<int>)
    ensures PositionalSum(ds) == Horner(ds)
  {
    WeightedPrefixIsHorner(ds, |ds|);
    assert ds[..|ds|] == ds;
  }

  /** One, two and three tokens read as seconds, minutes:seconds and hours:minutes:seconds. */
  lemma DurationShapes(ds: seq<int>)
    ensures |ds| == 1 ==> PositionalSum(ds) == ds[0]
    ensures |ds| == 2 ==> PositionalSum(ds) == 60 * ds[0] + ds[1]
    ensures |ds| == 3 ==> PositionalSum(ds) == 3600 * ds[0] + 60 * ds[1] + ds[2]
  {
    PositionalIsHorner(ds);
    if |ds| >= 1 {
      assert ds[..1][..0] == [];
      assert Horner(ds[..1]) == ds[0];
    }
    if |ds| == 2 {
      assert ds[..|ds| - 1] == ds[..1];
    }
    if |ds| == 3 {
      assert ds[..2][..1] == ds[..1];
      assert Horner(ds[..2]) == 60 * ds[0] + ds[1];
      assert ds[..|ds| - 1] == ds[..2];
    }
  }

  lemma {:induction false} HornerNonNegative(ds: seq<int>)
    requires forall i :: 0 <= i < |ds| ==> ds[i] >= 0
    ensures Horner(ds) >= 0
  {
    if ds != [] {
      HornerNonNegative(ds[..|ds| - 1]);
    }
  }

  /** A duration whose tokens are all plain digit strings is never negative. */
  lemma DurationNonNegative(raw: string)
    requires forall i :: 0 <= i < |Split(raw, ':')| ==> IsDigits(Split(raw, ':')[i])
    ensures SecondsFromRawDuration(raw).Some?
    ensures SecondsFromRawDuration(raw).value >= 0
  {
    var ds := ParseTokens(Split(raw, ':')).value;
    PositionalIsHorner(ds);
    HornerNonNegative(ds);
  }

  /** The base-60 digits of `n`, most significant first, with no leading zero digit. */
  function Base60Digits(n: nat): (ds: seq<int>)
    ensures |ds| >= 1
    ensures forall i :: 0 <= i < |ds| ==> 0 <= ds[i] < 60
    ensures Horner(ds) == n
  {
    if n < 60 then [n]
    else
      var ds := Base60Digits(n / 60) + [n % 60];
      assert ds[..|ds| - 1] == Base60Digits(n / 60);
      ds
  }

  /** A two-digit, zero-padded numeral for a base-60 digit. */
  function Pad2(d: int): (s: string)
    requires 0 <= d < 60
    ensures ParseInt(s) == Some(d)
    ensures ':' !in s
  {
    if d < 10 then
      var s := ['0', DigitChar(d)];
      assert s[..1] == ['0'] && s[..1][..0] == [];
      assert DigitsValue(['0']) == DigitsValue([]) * 10 + DigitValue('0') == 0;
      assert DigitValue(s[1]) == d;
      assert DigitsValue(s) == DigitsValue(s[..1]) * 10 + DigitValue(s[1]);
      s
    else
      ParseDecimal(d);
      Decimal(d)
  }

  /** Every digit padded to two characters. */
  function PaddedPieces(ds: seq<int>): (ps: seq<string>)
    requires forall i :: 0 <= i < |ds| ==> 0 <= ds[i] < 60
    ensures |ps| == |ds|
    ensures forall i :: 0 <= i < |ps| ==> ':' !in ps[i] && ParseInt(ps[i]) == Some(ds[i])
  {
    seq(|ds|, i requires 0 <= i < |ds| => Pad2(ds[i]))
  }

  /** Prefixing one more colon-free numeral keeps pieces and digits in step. */
  lemma ConsPieces(head: string, d: int, tail: seq<string>, ds: seq<int>)
    requires ':' !in head && ParseInt(head) == Some(d)
    requires |tail| == |ds| && forall i :: 0 <= i < |tail| ==> ':' !in tail[i] && ParseInt(tail[i]) == Some(ds[i])
    ensures forall i :: 0 <= i < |tail| + 1 ==>
              ':' !in ([head] + tail)[i] && ParseInt(([head] + tail)[i]) == Some(([d] + ds)[i])
  {
    forall i | 0 <= i < |tail| + 1
      ensures ':' !in ([head] + tail)[i] && ParseInt(([head] + tail)[i]) == Some(([d] + ds)[i])
    {
      if i > 0 {
        assert ([head] + tail)[i] == tail[i - 1] && ([d] + ds)[i] == ds[i - 1];
      }
    }
  }

  /** The pieces of a duration's text: the leading digit unpadded, every later one padded to two. */
  function DurationPieces(ds: seq<int>): (ps: seq<string>)
    requires |ds| >= 1 && forall i :: 0 <= i < |ds| ==> 0 <= ds[i] < 60
    ensures |ps| == |ds|
    ensures forall i :: 0 <= i < |ps| ==> ':' !in ps[i] && ParseInt(ps[i]) == Some(ds[i])
  {
    var head := Decimal(ds[0]);
    ParseDecimal(ds[0]);
    assert ':' !in head by {
      assert IsDigits(head);
    }
    ConsPieces(head, ds[0], PaddedPieces(ds[1..]), ds[1..]);
    assert [ds[0]] + ds[1..] == ds;
    [head] + PaddedPieces(ds[1..])
  }

  /** The base-60 colon text of a duration in seconds, one field per base-60 digit; it has the "H:MM:SS" shape only below 60 hours. */
  function FormatDuration(n: nat): string
  {
    Join(DurationPieces(Base60Digits(n)), ':')
  }

  /** Parsing the text of a duration gives back the number of seconds. */
  lemma DurationRoundTrip(n: nat)
    ensures SecondsFromRawDuration(FormatDuration(n)) == Some(n)
  {
    var ds := Base60Digits(n);
    var pieces := DurationPieces(ds);
    SplitJoin(pieces, ':');
    assert ParseTokens(pieces).value == ds;
    PositionalIsHorner(ds);
  }

  // Normalisation

  /**
   * `get_SP_song_info`: the canonical record of a Spotify track. Title, artist and album are
   * case-folded, the id is copied, and the millisecond duration becomes seconds.
   */
  function SpSongInfo(song: SpTrack): (info: SongInfo)
    ensures !HasUpper(info.title) && Lower(info.title) == Lower(song.name)
    ensures !HasUpper(info.artist) && Lower(info.artist) == Lower(song.artist)
    ensures info.album.Some? && !HasUpper(info.album.value) && Lower(info.album.value) == Lower(song.album)
    ensures info.id == song.id
    ensures info.seconds * 1000.0 == song.durationMs as real
    ensures info.resultType.None? && info.topResult.None?
  {
    LowerIsFolded(song.name);
    LowerIsFolded(song.artist);
    LowerIsFolded(song.album);
    SongInfo(Lower(song.name), Lower(song.artist), song.id, Some(Lower(song.album)),
             song.durationMs as real / 1000.0, None, None)
  }

  /**
   * `get_YT_song_info`: the canonical record of a YouTube Music track. Title and artist are
   * case-folded but the album name is kept as it is; `None` stands for the `ValueError` raised by
   * a duration token that is not an integer.
   */
  function YtSongInfo(song: YtTrack): (r: Option<SongInfo>)
    ensures r.Some? <==> SecondsFromRawDuration(song.duration).Some?
    ensures r.Some? ==> !HasUpper(r.value.title) && Lower(r.value.title) == Lower(song.title)
    ensures r.Some? ==> !HasUpper(r.value.artist) && Lower(r.value.artist) == Lower(song.artist)
    ensures r.Some? ==> r.value.id == song.videoId && r.value.album == song.album
    ensures r.Some? ==> r.value.seconds == SecondsFromRawDuration(song.duration).value as real
    ensures r.Some? ==> r.value.resultType == Some(song.resultType)
    ensures r.Some? ==> r.value.topResult.Some? && (r.value.topResult.value <==> song.category == "Top result")
  {
    LowerIsFolded(song.title);
    LowerIsFolded(song.artist);
    match SecondsFromRawDuration(song.duration)
    case None => None
    case Some(secs) =>
      Some(SongInfo(Lower(song.title), Lower(song.artist), song.videoId, song.album,
                    secs as real, Some(song.resultType), Some(song.category == "Top result")))
  }

  // The tally of songs that were not added

  /** A song left out as a duplicate: the query shown for it and the destination id it matched. */
  datatype Dupe = Dupe(query: string, id: string)

  /** One playlist's entry of `NOT_ADDED_SONGS`. */
  datatype NotAdded = NotAdded(unfound: seq<string>, dupes: seq<Dupe>)

  /** `NOT_ADDED_SONGS`, threaded through the conversion as a value: playlist name to its entry. */
  type Tally = map<string, NotAdded>

  /** A playlist's entry, or the empty entry that would be created for it. */
  function EntryOf(t: Tally, playlist: string): NotAdded
  {
    if playlist in t then t[playlist] else NotAdded([], [])
  }

  /**
   * `print_unfound_song_error` without the printing: create the playlist's entry if it is absent,
   * then log `query` at the end of its `unfound` list.
   */
  function RecordUnfound(t: Tally, playlist: string, query: string): (t': Tally)
    ensures t'.Keys == t.Keys + {playlist}
    ensures |t'[playlist].unfound| == |EntryOf(t, playlist).unfound| + 1
    ensures t'[playlist].unfound[..|EntryOf(t, playlist).unfound|] == EntryOf(t, playlist).unfound
    ensures t'[playlist].unfound[|t'[playlist].unfound| - 1] == query
    ensures t'[playlist].dupes == EntryOf(t, playlist).dupes
    ensures forall p :: p in t && p != playlist ==> t'[p] == t[p]
  {
    var e := EntryOf(t, playlist);
    t[playlist := e.(unfound := e.unfound + [query])]
  }

  /** The same log step for the `dupes` list, whose entries also carry the matched id. */
  function RecordDupe(t: Tally, playlist: string, query: string, id: string): (t': Tally)
    ensures t'.Keys == t.Keys + {playlist}
    ensures |t'[playlist].dupes| == |EntryOf(t, playlist).dupes| + 1
    ensures t'[playlist].dupes[..|EntryOf(t, playlist).dupes|] == EntryOf(t, playlist).dupes
    ensures t'[playlist].dupes[|t'[playlist].dupes| - 1] == Dupe(query, id)
    ensures t'[playlist].unfound == EntryOf(t, playlist).unfound
    ensures forall p :: p in t && p != playlist ==> t'[p] == t[p]
  {
    var e := EntryOf(t, playlist);
    t[playlist := e.(dupes := e.dupes + [Dupe(query, id)])]
  }

  // What happened to one source track

  /**
   * The fate of one source track: removed from the source playlist (a null entry), searched for
   * without success, or matched to a destination id. `query` is the text reported for the track.
   */
  datatype Outcome = Removed | NotFound(query: string) | Found(query: string, id: string)

  /** The label a removed track is reported under: `"Song #"` and its 1-based position. */
  function SongNumber(index: nat): string
  {
    "Song #" + Decimal(index + 1)
  }

  /** The ids of the found tracks, in source order. */
  function FoundIds(outs: seq<Outcome>): (ids: seq<string>)
    ensures |ids| <= |outs|
  {
    if outs == [] then []
    else FoundIds(outs[..|outs| - 1]) + (if outs[|outs| - 1].Found? then [outs[|outs| - 1].id] else [])
  }

  /** An id is matched exactly when some outcome found it. */
  lemma {:induction false} FoundIdsMembers(outs: seq<Outcome>, x: string)
    ensures x in FoundIds(outs) <==> exists i :: 0 <= i < |outs| && outs[i].Found? && outs[i].id == x
  {
    if outs != [] {
      var init := outs[..|outs| - 1];
      FoundIdsMembers(init, x);
      assert forall i :: 0 <= i < |init| ==> init[i] == outs[i];
    }
  }

  /** Log a track that was not matched: a removed track under its number, a failed search under its query. */
  function RecordMiss(t: Tally, playlist: string, index: nat, o: Outcome): (t': Tally)
    requires !o.Found?
  {
    RecordUnfound(t, playlist, MissLabel(index, o))
  }

  /** The text an unmatched track at position `index` is logged under. */
  function MissLabel(index: nat, o: Outcome): string
    requires !o.Found?
  {
    if o.Removed? then SongNumber(index) else o.query
  }

  /** The labels of the unmatched tracks, in source order. */
  function MissLabels(outs: seq<Outcome>): seq<string>
  {
    if outs == [] then []
    else
      var i := |outs| - 1;
      MissLabels(outs[..i]) + (if outs[i].Found? then [] else [MissLabel(i, outs[i])])
  }

  /** Every outcome is either a match or a miss. */
  lemma {:induction false} OutcomesSplit(outs: seq<Outcome>)
    ensures |FoundIds(outs)| + |MissLabels(outs)| == |outs|
  {
    if outs != [] {
      OutcomesSplit(outs[..|outs| - 1]);
    }
  }

  /** The matched ids of a list of duplicate entries, in order. */
  function DupeIds(ds: seq<Dupe>): (ids: seq<string>)
    ensures |ids| == |ds|
    ensures forall i :: 0 <= i < |ds| ==> ids[i] == ds[i].id
  {
    seq(|ds|, i requires 0 <= i < |ds| => ds[i].id)
  }

  /** The description a created playlist is given. */
  function Description(keepDupes: bool): string
  {
    if keepDupes then "Includes duplicates" else "Does not include duplicates"
  }
}
