/**
 * Liked-album conversion, written once for both directions (`convert_SP_to_YT_liked_albums` and
 * `convert_YT_liked_albums`): every search result earns one score step per criterion it meets, and
 * the best-scoring result is liked in the destination library.
 */
module Albums {
  import opened Results
  import opened Ranking
  import opened PyDict
  import opened Seqs

  /** A Spotify album, as a liked album or as a search result (`artist` is `artists[0].name`). */
  datatype SpAlbum = SpAlbum(id: string, name: string, artist: string, releaseDate: string)

  /** A YouTube Music album, as a liked album or as a search result. */
  datatype YtAlbum = YtAlbum(browseId: string, title: string, artist: string, year: string)

  /** The album looked for; `year` is whatever year text the source side compares. */
  datatype AlbumTarget = AlbumTarget(title: string, artist: string, year: string)

  /** One album search result; `year` is the year text compared against the target's. */
  datatype AlbumCandidate = AlbumCandidate(id: string, title: string, artist: string, year: string)

  /** Python's `s[:n]`. */
  function Take(s: string, n: nat): (r: string)
    ensures |r| <= n
    ensures r == s || (|s| > n && r == s[..n])
  {
    if |s| <= n then s else s[..n]
  }

  /** The year text both files cut from a Spotify release date, as written: `release_date[:3]`. */
  function SpotifyYearKeyAsWritten(releaseDate: string): string
  {
    Take(releaseDate, 3)
  }

  /** The year of a Spotify release date: its first four characters. */
  function SpotifyYearKey(releaseDate: string): string
  {
    Take(releaseDate, 4)
  }

  /** With a four-character year on the other side, the three-character cut never compares equal. */
  lemma YearNeverMatchesAsWritten(releaseDate: string, year: string)
    requires |year| == 4
    ensures SpotifyYearKeyAsWritten(releaseDate) != year
  {
  }

  /** The four-character cut matches the year a release date starts with. */
  lemma YearMatches(releaseDate: string, year: string)
    requires |year| == 4 && |releaseDate| >= 4 && releaseDate[..4] == year
    ensures SpotifyYearKey(releaseDate) == year
  {
  }

  /** Python's `needle in hay` on strings. */
  predicate IsSubstring(needle: string, hay: string)
  {
    exists i :: 0 <= i <= |hay| - |needle| && OccursAt(needle, hay, i)
  }

  predicate OccursAt(needle: string, hay: string, i: int)
    requires 0 <= i <= |hay| - |needle|
  {
    hay[i..i + |needle|] == needle
  }

  /** Every criterion of the album score holds. */
  predicate MeetsAll(c: AlbumCandidate, t: AlbumTarget)
  {
    && c.artist == t.artist
    && c.title == t.title
    && (IsSubstring(c.title, t.title) || IsSubstring(t.title, c.title))
    && c.year == t.year
  }

  /** No criterion of the album score holds. */
  predicate MeetsNone(c: AlbumCandidate, t: AlbumTarget)
  {
    && c.artist != t.artist
    && c.title != t.title
    && !(IsSubstring(c.title, t.title) || IsSubstring(t.title, c.title))
    && c.year != t.year
  }

  /** The four criteria an album search result is scored on, in the order the scoring loop tests them. */
  datatype Criterion = SameArtist | SameTitle | TitleContained | SameYear

  /** Whether a search result meets one criterion for the album looked for. */
  predicate Holds(k: Criterion, c: AlbumCandidate, t: AlbumTarget)
  {
    match k
    case SameArtist => c.artist == t.artist
    case SameTitle => c.title == t.title
    case TitleContained => IsSubstring(c.title, t.title) || IsSubstring(t.title, c.title)
    case SameYear => c.year == t.year
  }

  /** The criteria a search result meets, each listed once, in the scoring loop's order. */
  function CriteriaMet(c: AlbumCandidate, t: AlbumTarget): (met: seq<Criterion>)
    ensures forall k :: k in met <==> Holds(k, c, t)
    ensures NoDup(met)
  {
    (if Holds(SameArtist, c, t) then [SameArtist] else [])
      + (if Holds(SameTitle, c, t) then [SameTitle] else [])
      + (if Holds(TitleContained, c, t) then [TitleContained] else [])
      + (if Holds(SameYear, c, t) then [SameYear] else [])
  }

  /**
   * The score of one album search result: one `unit` for each criterion it meets (the same
   * artist, the same title, either title containing the other, the same year text).
   */
  function AlbumScore(c: AlbumCandidate, t: AlbumTarget, unit: int): (s: int)
    ensures s == unit * |CriteriaMet(c, t)|
    ensures unit >= 0 ==> 0 <= s <= 4 * unit
    ensures unit > 0 ==> (s == 4 * unit <==> MeetsAll(c, t))
    ensures unit > 0 ==> (s == 0 <==> MeetsNone(c, t))
    ensures unit >= 0 && c.title == t.title ==> s >= 2 * unit
  {
    assert c.title == t.title ==> OccursAt(c.title, t.title, 0);
    var s := 0;
    var s := if c.artist == t.artist then s + unit else s;
    var s := if c.title == t.title then s + unit else s;
    var s := if IsSubstring(c.title, t.title) || IsSubstring(t.title, c.title) then s + unit else s;
    var s := if c.year == t.year then s + unit else s;
    s
  }

  /** The assignments `found[id] = score` the scoring loop performs, in result order. */
  function AlbumScores(results: seq<AlbumCandidate>, t: AlbumTarget, unit: int): (pairs: seq<(string, ExtReal)>)
    ensures |pairs| == |results|
    ensures forall i :: 0 <= i < |results| ==> pairs[i] == (results[i].id, Fin(AlbumScore(results[i], t, unit) as real))
    ensures KeysOf(pairs) == IdsOf(results)
  {
    var pairs := seq(|results|, i requires 0 <= i < |results| => (results[i].id, Fin(AlbumScore(results[i], t, unit) as real)));
    assert KeysOf(pairs) == IdsOf(results);
    pairs
  }

  /**
   * The album picked among the search results: `None` when there are none; otherwise an id whose
   * score (that of its last listing) is maximal, and every id first listed before it scores less:
   * ties go to the id listed first.
   */
  function PickAlbum(results: seq<AlbumCandidate>, t: AlbumTarget, unit: int): (r: Option<string>)
    ensures r.None? <==> results == []
    ensures r.Some? ==> r.value in IdsOf(results)
    ensures r.Some? ==> forall i :: 0 <= i < |results| ==>
      AtMost(LastValue(AlbumScores(results, t, unit), results[i].id), LastValue(AlbumScores(results, t, unit), r.value))
    ensures r.Some? ==> forall i, j :: 0 <= j < i < |Dedup(IdsOf(results))| && Dedup(IdsOf(results))[i] == r.value ==>
      Less(LastValue(AlbumScores(results, t, unit), Dedup(IdsOf(results))[j]), LastValue(AlbumScores(results, t, unit), r.value))
  {
    var pairs := AlbumScores(results, t, unit);
    assert KeysOf(pairs) == IdsOf(results);
    BestKey(pairs)
  }

  /** The ids of album search results, in result order. */
  function IdsOf(results: seq<AlbumCandidate>): (ids: seq<string>)
    ensures |ids| == |results|
    ensures forall i :: 0 <= i < |results| ==> ids[i] == results[i].id
  {
    seq(|results|, i requires 0 <= i < |results| => results[i].id)
  }

  /** The text an album is searched for and reported under. */
  function AlbumQuery(t: AlbumTarget): string
  {
    t.title + " by " + t.artist
  }

  /** What an album conversion produces: the ids liked in the destination, and the queries of albums not found. */
  datatype AlbumRun = AlbumRun(liked: seq<string>, notAdded: seq<string>)

  /**
   * One more album handled: if every earlier album without results was reported, and the new
   * one is reported when it has no results, then every album without results is reported.
   */
  lemma ReportedStep(targets: seq<AlbumTarget>, init: seq<AlbumTarget>, search: string -> seq<AlbumCandidate>,
                     notAdded: seq<string>, more: seq<string>)
    requires |targets| > 0 && init == targets[..|targets| - 1]
    requires forall i :: 0 <= i < |init| && search(AlbumQuery(init[i])) == [] ==> AlbumQuery(init[i]) in notAdded
    requires search(AlbumQuery(targets[|targets| - 1])) == [] ==> AlbumQuery(targets[|targets| - 1]) in more
    ensures forall i :: 0 <= i < |targets| && search(AlbumQuery(targets[i])) == [] ==>
              AlbumQuery(targets[i]) in notAdded + more
  {
    forall i | 0 <= i < |targets| && search(AlbumQuery(targets[i])) == []
      ensures AlbumQuery(targets[i]) in notAdded + more
    {
      if i < |init| {
        assert init[i] == targets[i];
      }
    }
  }

  /** One more album handled: every reported query still belongs to an album whose search came back empty. */
  lemma NotAddedStep(targets: seq<AlbumTarget>, init: seq<AlbumTarget>, search: string -> seq<AlbumCandidate>,
                     notAdded: seq<string>, more: seq<string>)
    requires |targets| > 0 && init == targets[..|targets| - 1]
    requires forall q :: q in notAdded ==> exists i :: 0 <= i < |init| && q == AlbumQuery(init[i]) && search(q) == []
    requires forall q :: q in more ==> q == AlbumQuery(targets[|targets| - 1]) && search(q) == []
    ensures forall q :: q in notAdded + more ==> exists i :: 0 <= i < |targets| && q == AlbumQuery(targets[i]) && search(q) == []
  {
    forall q | q in notAdded + more
      ensures exists i :: 0 <= i < |targets| && q == AlbumQuery(targets[i]) && search(q) == []
    {
      if q in notAdded {
        var i :| 0 <= i < |init| && q == AlbumQuery(init[i]) && search(q) == [];
        assert init[i] == targets[i];
      } else {
        assert q == AlbumQuery(targets[|targets| - 1]);
      }
    }
  }

  /** `id` is among the search results of one of the albums. */
  ghost predicate ResultOfSome(id: string, targets: seq<AlbumTarget>, search: string -> seq<AlbumCandidate>)
  {
    exists i :: 0 <= i < |targets| && id in IdsOf(search(AlbumQuery(targets[i])))
  }

  /** One more album handled: every liked id is still a search result of some album. */
  lemma LikedStep(targets: seq<AlbumTarget>, init: seq<AlbumTarget>, search: string -> seq<AlbumCandidate>,
                  liked: seq<string>, more: seq<string>)
    requires |targets| > 0 && init == targets[..|targets| - 1]
    requires forall k :: 0 <= k < |liked| ==> ResultOfSome(liked[k], init, search)
    requires forall k :: 0 <= k < |more| ==> more[k] in IdsOf(search(AlbumQuery(targets[|targets| - 1])))
    ensures forall k :: 0 <= k < |liked + more| ==> ResultOfSome((liked + more)[k], targets, search)
  {
    forall k | 0 <= k < |liked + more|
      ensures ResultOfSome((liked + more)[k], targets, search)
    {
      if k < |liked| {
        var i :| 0 <= i < |init| && liked[k] in IdsOf(search(AlbumQuery(init[i])));
        assert init[i] == targets[i];
        assert (liked + more)[k] == liked[k];
      } else {
        var j := |targets| - 1;
        assert (liked + more)[k] == more[k - |liked|];
        assert (liked + more)[k] in IdsOf(search(AlbumQuery(targets[j])));
      }
    }
  }

  /**
   * Convert every liked album in order: search for it, like the picked result, or append its
   * query to the not-added list when the search returned nothing.
   */
  function ConvertLikedAlbums(targets: seq<AlbumTarget>, search: string -> seq<AlbumCandidate>, unit: int): (r: AlbumRun)
    ensures |r.liked| + |r.notAdded| == |targets|
  {
    if targets == [] then AlbumRun([], [])
    else
      var r := ConvertLikedAlbums(targets[..|targets| - 1], search, unit);
      var t := targets[|targets| - 1];
      match PickAlbum(search(AlbumQuery(t)), t, unit)
      case None => AlbumRun(r.liked, r.notAdded + [AlbumQuery(t)])
      case Some(id) => AlbumRun(r.liked + [id], r.notAdded)
  }

  /** The picked album of the last target, and the queries reported for it. */
  lemma LastAlbumStep(targets: seq<AlbumTarget>, search: string -> seq<AlbumCandidate>, unit: int)
    requires |targets| > 0
    ensures var t := targets[|targets| - 1];
            var r := ConvertLikedAlbums(targets[..|targets| - 1], search, unit);
            var pick := PickAlbum(search(AlbumQuery(t)), t, unit);
            ConvertLikedAlbums(targets, search, unit) ==
              AlbumRun(r.liked + (if pick.Some? then [pick.value] else []),
                       r.notAdded + (if pick.None? then [AlbumQuery(t)] else []))
  {
    var r := ConvertLikedAlbums(targets[..|targets| - 1], search, unit);
    assert r.liked + [] == r.liked && r.notAdded + [] == r.notAdded;
  }

  /** Every album whose search comes back empty is reported by its query. */
  lemma {:induction false} EmptySearchesReported(targets: seq<AlbumTarget>, search: string -> seq<AlbumCandidate>, unit: int)
    ensures forall i :: 0 <= i < |targets| && search(AlbumQuery(targets[i])) == [] ==>
              AlbumQuery(targets[i]) in ConvertLikedAlbums(targets, search, unit).notAdded
  {
    if targets != [] {
      var init := targets[..|targets| - 1];
      var t := targets[|targets| - 1];
      EmptySearchesReported(init, search, unit);
      LastAlbumStep(targets, search, unit);
      var pick := PickAlbum(search(AlbumQuery(t)), t, unit);
      ReportedStep(targets, init, search, ConvertLikedAlbums(init, search, unit).notAdded,
                   if pick.None? then [AlbumQuery(t)] else []);
    }
  }

  /** Only albums whose search comes back empty are reported. */
  lemma {:induction false} ReportedHadNoResults(targets: seq<AlbumTarget>, search: string -> seq<AlbumCandidate>, unit: int)
    ensures forall q :: q in ConvertLikedAlbums(targets, search, unit).notAdded ==>
              exists i :: 0 <= i < |targets| && q == AlbumQuery(targets[i]) && search(q) == []
  {
    if targets != [] {
      var init := targets[..|targets| - 1];
      var t := targets[|targets| - 1];
      ReportedHadNoResults(init, search, unit);
      LastAlbumStep(targets, search, unit);
      var pick := PickAlbum(search(AlbumQuery(t)), t, unit);
      NotAddedStep(targets, init, search, ConvertLikedAlbums(init, search, unit).notAdded,
                   if pick.None? then [AlbumQuery(t)] else []);
    }
  }

  /** Every liked id is a search result for one of the albums. */
  lemma {:induction false} LikedWereFound(targets: seq<AlbumTarget>, search: string -> seq<AlbumCandidate>, unit: int)
    ensures var liked := ConvertLikedAlbums(targets, search, unit).liked;
            forall k :: 0 <= k < |liked| ==> ResultOfSome(liked[k], targets, search)
  {
    if targets != [] {
      var init := targets[..|targets| - 1];
      var t := targets[|targets| - 1];
      LikedWereFound(init, search, unit);
      LastAlbumStep(targets, search, unit);
      var pick := PickAlbum(search(AlbumQuery(t)), t, unit);
      LikedStep(targets, init, search, ConvertLikedAlbums(init, search, unit).liked,
                if pick.Some? then [pick.value] else []);
    }
  }

  /** How many of the albums have a pick. */
  function Picked(targets: seq<AlbumTarget>, pick: AlbumTarget -> Option<string>): (n: nat)
    ensures n <= |targets|
  {
    if targets == [] then 0
    else Picked(targets[..|targets| - 1], pick) + (if pick(targets[|targets| - 1]).Some? then 1 else 0)
  }

  /** One more album handled: the liked ids stay the picks of the albums that have one, in order. */
  lemma PicksStep(targets: seq<AlbumTarget>, init: seq<AlbumTarget>, pick: AlbumTarget -> Option<string>,
                  liked: seq<string>, more: seq<string>)
    requires |targets| > 0 && init == targets[..|targets| - 1]
    requires |liked| == Picked(init, pick)
    requires forall i :: 0 <= i < |init| && pick(init[i]).Some? ==>
               Picked(init[..i], pick) < |liked| && liked[Picked(init[..i], pick)] == pick(init[i]).value
    requires var p := pick(targets[|targets| - 1]); more == if p.Some? then [p.value] else []
    ensures forall i :: 0 <= i < |targets| && pick(targets[i]).Some? ==>
              Picked(targets[..i], pick) < |liked + more| && (liked + more)[Picked(targets[..i], pick)] == pick(targets[i]).value
  {
    forall i | 0 <= i < |targets| && pick(targets[i]).Some?
      ensures Picked(targets[..i], pick) < |liked + more|
      ensures (liked + more)[Picked(targets[..i], pick)] == pick(targets[i]).value
    {
      if i < |init| {
        assert targets[..i] == init[..i];
        assert targets[i] == init[i];
      } else {
        assert targets[..i] == init;
      }
    }
  }

  /** The pick for each album: its search results scored against it. */
  function PickFor(search: string -> seq<AlbumCandidate>, unit: int): (pick: AlbumTarget -> Option<string>)
    ensures forall t :: pick(t).None? <==> search(AlbumQuery(t)) == []
  {
    t => PickAlbum(search(AlbumQuery(t)), t, unit)
  }

  /** One album is liked for every album that has a pick, that is, whose search returned anything. */
  lemma {:induction false} LikedCount(targets: seq<AlbumTarget>, search: string -> seq<AlbumCandidate>, unit: int)
    ensures |ConvertLikedAlbums(targets, search, unit).liked| == Picked(targets, PickFor(search, unit))
  {
    if targets != [] {
      LikedCount(targets[..|targets| - 1], search, unit);
      LastAlbumStep(targets, search, unit);
    }
  }

  /**
   * The liked ids are the picks, in album order: an album at position `i` with a pick put it at
   * the position that counts the albums with a pick before it.
   */
  lemma {:induction false} LikedArePicks(targets: seq<AlbumTarget>, search: string -> seq<AlbumCandidate>, unit: int)
    ensures var liked := ConvertLikedAlbums(targets, search, unit).liked;
            var pick := PickFor(search, unit);
            forall i :: 0 <= i < |targets| && pick(targets[i]).Some? ==>
              Picked(targets[..i], pick) < |liked| && liked[Picked(targets[..i], pick)] == pick(targets[i]).value
  {
    if targets != [] {
      var init := targets[..|targets| - 1];
      var t := targets[|targets| - 1];
      var pick := PickFor(search, unit);
      LikedArePicks(init, search, unit);
      LikedCount(init, search, unit);
      LastAlbumStep(targets, search, unit);
      PicksStep(targets, init, pick, ConvertLikedAlbums(init, search, unit).liked,
                if pick(t).Some? then [pick(t).value] else []);
    }
  }
}
