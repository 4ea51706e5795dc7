/**
 * The command-line front end (`main` in main.py) as a pure function: the answers typed at each
 * prompt, and the parts of each pasted URL, decide which conversion runs. Every prompt is asked
 * again until its answer is accepted.
 */
module Routing {
  import opened Results
  import opened Text

  /** What the first prompt chooses between. */
  datatype Job = Playlist | Library

  /** The job an answer selects, compared case-insensitively; `None` makes `main` ask again. */
  function JobAnswer(answer: string): (r: Option<Job>)
    ensures r == Some(Playlist) <==> answer == "P" || answer == "p"
    ensures r == Some(Library) <==> answer == "L" || answer == "l"
    ensures r.None? <==> answer !in {"P", "p", "L", "l"}
  {
    UpperIsLetter(answer, 'P');
    UpperIsLetter(answer, 'L');
    var u := Upper(answer);
    if u == "P" then Some(Playlist) else if u == "L" then Some(Library) else None
  }

  /** Whether to keep duplicates, compared case-insensitively; `None` makes `main` ask again. */
  function DupesAnswer(answer: string): (r: Option<bool>)
    ensures r == Some(true) <==> answer == "Y" || answer == "y"
    ensures r == Some(false) <==> answer == "N" || answer == "n"
    ensures r.None? <==> answer !in {"Y", "y", "N", "n"}
  {
    UpperIsLetter(answer, 'Y');
    UpperIsLetter(answer, 'N');
    var u := Upper(answer);
    if u == "Y" then Some(true) else if u == "N" then Some(false) else None
  }

  /** The library a source answer names, compared case-insensitively; `None` makes `main` ask again. */
  datatype Side = SpotifySide | YouTubeSide

  function SourceAnswer(answer: string): (r: Option<Side>)
    ensures r == Some(SpotifySide) <==> answer == "S" || answer == "s"
    ensures r == Some(YouTubeSide) <==> answer == "Y" || answer == "y"
    ensures r.None? <==> answer !in {"S", "s", "Y", "y"}
  {
    UpperIsLetter(answer, 'S');
    UpperIsLetter(answer, 'Y');
    var u := Upper(answer);
    if u == "S" then Some(SpotifySide) else if u == "Y" then Some(YouTubeSide) else None
  }

  /**
   * A prompt asked until an answer is accepted: the value of the first accepted answer and its
   * position, or `None` when no answer given is accepted.
   */
  function FirstAccepted<A, T>(answers: seq<A>, accept: A -> Option<T>): (r: Option<(T, nat)>)
    ensures r.None? <==> forall i :: 0 <= i < |answers| ==> accept(answers[i]).None?
    ensures r.Some? ==> r.value.1 < |answers| && accept(answers[r.value.1]) == Some(r.value.0)
    ensures r.Some? ==> forall i :: 0 <= i < r.value.1 ==> accept(answers[i]).None?
  {
    if answers == [] then None
    else
      match accept(answers[0])
      case Some(v) => Some((v, 0))
      case None =>
        match FirstAccepted(answers[1..], accept)
        case None =>
          assert forall i :: 1 <= i < |answers| ==> answers[i] == answers[1..][i - 1];
          None
        case Some(p) =>
          assert forall i :: 1 <= i <= p.1 ==> answers[i] == answers[1..][i - 1];
          Some((p.0, p.1 + 1))
  }

  /** The parts of a pasted URL that `main` reads (`urlparse(url).netloc`, `.path`, `.query`). */
  datatype Url = Url(netloc: string, path: string, query: string)

  const SpotifyHost := "open.spotify.com"
  const YouTubeMusicHost := "music.youtube.com"
  const SpotifyPlaylistPrefix := "/playlist/"

  /** Where a pasted URL leads: a playlist of either service, or one of the three errors that re-prompt. */
  datatype Route =
    | SpotifyPlaylist(id: string)
    | YouTubePlaylist(id: string)
    | NotSpotifyPlaylist
    | NotYouTubePlaylist
    | UnknownHost

  /** Python's `s[n:]`. */
  function Drop(s: string, n: nat): (r: string)
  {
    if |s| <= n then [] else s[n..]
  }

  /**
   * The URL dispatch of `main`: a Spotify URL whose path starts with "/playlist/" names the
   * playlist by the rest of the path; a YouTube Music URL whose path is exactly "/playlist" names
   * it by its query minus the five characters of "list="; anything else is an error.
   */
  function RouteUrl(u: Url): (r: Route)
    ensures r.SpotifyPlaylist? <==>
              u.netloc == SpotifyHost && |u.path| >= 10 && u.path[..10] == SpotifyPlaylistPrefix
    ensures r.SpotifyPlaylist? ==> u.path == SpotifyPlaylistPrefix + r.id
    ensures r.NotSpotifyPlaylist? <==> u.netloc == SpotifyHost && !r.SpotifyPlaylist?
    ensures r.YouTubePlaylist? <==> u.netloc == YouTubeMusicHost && u.path == "/playlist"
    ensures r.YouTubePlaylist? ==>
              if |u.query| >= 5 then u.query == u.query[..5] + r.id else r.id == ""
    ensures r.NotYouTubePlaylist? <==> u.netloc == YouTubeMusicHost && u.path != "/playlist"
    ensures r.UnknownHost? <==> u.netloc != SpotifyHost && u.netloc != YouTubeMusicHost
  {
    if u.netloc == SpotifyHost then
      if |u.path| >= 10 && u.path[..10] == SpotifyPlaylistPrefix then
        assert u.path == u.path[..10] + u.path[10..];
        SpotifyPlaylist(u.path[10..])
      else NotSpotifyPlaylist
    else if u.netloc == YouTubeMusicHost then
      if u.path == "/playlist" then
        assert |u.query| >= 5 ==> u.query == u.query[..5] + u.query[5..];
        YouTubePlaylist(Drop(u.query, 5))
      else NotYouTubePlaylist
    else UnknownHost
  }

  /** Every Spotify playlist id comes back out of the URL that names it. */
  lemma SpotifyUrlRoundTrip(id: string, query: string)
    ensures RouteUrl(Url(SpotifyHost, SpotifyPlaylistPrefix + id, query)) == SpotifyPlaylist(id)
  {
    var path := SpotifyPlaylistPrefix + id;
    assert path[..10] == SpotifyPlaylistPrefix;
    assert path[10..] == id;
  }

  /** Every YouTube Music playlist id comes back out of the URL that names it ("?list=<id>"). */
  lemma YouTubeUrlRoundTrip(id: string)
    ensures RouteUrl(Url(YouTubeMusicHost, "/playlist", "list=" + id)) == YouTubePlaylist(id)
  {
    assert ("list=" + id)[5..] == id;
  }

  /** The conversion `main` starts. */
  datatype Command =
    | ConvertSpotifyPlaylist(playlistId: string, keepDupes: bool)
    | ConvertYouTubePlaylist(playlistId: string, keepDupes: bool)
    | ConvertSpotifyLibrary(keepDupes: bool)
    | ConvertYouTubeLibrary(keepDupes: bool)

  /** The conversion a pasted URL starts, if it is a playlist URL. */
  function UrlCommand(u: Url, keepDupes: bool): (c: Option<Command>)
  {
    match RouteUrl(u)
    case SpotifyPlaylist(id) => Some(ConvertSpotifyPlaylist(id, keepDupes))
    case YouTubePlaylist(id) => Some(ConvertYouTubePlaylist(id, keepDupes))
    case _ => None
  }

  /**
   * `main` without its I/O: the successive answers to the job prompt, to the duplicates prompt,
   * and to the prompt of the chosen job (the URLs in playlist mode, the source answers in library
   * mode). `None` when some prompt never receives an accepted answer.
   */
  function Dispatch(jobAnswers: seq<string>, dupesAnswers: seq<string>, urls: seq<Url>, sources: seq<string>): (c: Option<Command>)
    ensures c.Some? ==> FirstAccepted(jobAnswers, JobAnswer).Some? && FirstAccepted(dupesAnswers, DupesAnswer).Some?
    ensures c.Some? ==> c.value.keepDupes == FirstAccepted(dupesAnswers, DupesAnswer).value.0
    ensures c.Some? ==> ((c.value.ConvertSpotifyPlaylist? || c.value.ConvertYouTubePlaylist?) <==>
                         FirstAccepted(jobAnswers, JobAnswer).value.0 == Playlist)
    ensures FirstAccepted(jobAnswers, JobAnswer).None? || FirstAccepted(dupesAnswers, DupesAnswer).None? ==> c.None?
    ensures FirstAccepted(jobAnswers, JobAnswer).Some? && FirstAccepted(dupesAnswers, DupesAnswer).Some? ==>
              var keep := FirstAccepted(dupesAnswers, DupesAnswer).value.0;
              c == if FirstAccepted(jobAnswers, JobAnswer).value.0 == Playlist then FirstUrlCommand(urls, keep)
                   else FirstSourceCommand(sources, keep)
  {
    match FirstAccepted(jobAnswers, JobAnswer)
    case None => None
    case Some((job, _)) =>
      match FirstAccepted(dupesAnswers, DupesAnswer)
      case None => None
      case Some((keep, _)) =>
        if job == Playlist then FirstUrlCommand(urls, keep) else FirstSourceCommand(sources, keep)
  }

  /** The conversion started by the first playlist URL among those pasted. */
  function FirstUrlCommand(urls: seq<Url>, keepDupes: bool): (c: Option<Command>)
    ensures c.None? <==> forall i :: 0 <= i < |urls| ==> RouteUrl(urls[i]).NotSpotifyPlaylist? || RouteUrl(urls[i]).NotYouTubePlaylist? || RouteUrl(urls[i]).UnknownHost?
    ensures c.Some? ==> exists i :: 0 <= i < |urls| && UrlCommand(urls[i], keepDupes) == c &&
                          forall j :: 0 <= j < i ==> UrlCommand(urls[j], keepDupes).None?
  {
    match FirstAccepted(urls, u => UrlCommand(u, keepDupes))
    case None => None
    case Some((c, i)) => Some(c)
  }

  /** The first source answer that names a library at all names `side`. */
  predicate FirstNamed(sources: seq<string>, side: Side)
  {
    exists i :: 0 <= i < |sources| && SourceAnswer(sources[i]) == Some(side) &&
                forall j :: 0 <= j < i ==> SourceAnswer(sources[j]).None?
  }

  /** The conversion started by the first library source answer that names a library. */
  function FirstSourceCommand(sources: seq<string>, keepDupes: bool): (c: Option<Command>)
    ensures c.None? <==> forall i :: 0 <= i < |sources| ==> SourceAnswer(sources[i]).None?
    ensures c == Some(ConvertSpotifyLibrary(keepDupes)) || c == Some(ConvertYouTubeLibrary(keepDupes)) || c.None?
    ensures c == Some(ConvertSpotifyLibrary(keepDupes)) <==> FirstNamed(sources, SpotifySide)
    ensures c == Some(ConvertYouTubeLibrary(keepDupes)) <==> FirstNamed(sources, YouTubeSide)
  {
    match FirstAccepted(sources, SourceAnswer)
    case None => None
    case Some((SpotifySide, _)) => Some(ConvertSpotifyLibrary(keepDupes))
    case Some((YouTubeSide, _)) => Some(ConvertYouTubeLibrary(keepDupes))
  }

  /**
   * A session that answers "p", then "n", then pastes a Spotify URL that is not a playlist and
   * then a playlist URL converts that playlist without duplicates.
   */
  lemma PlaylistSession(id: string)
    ensures Dispatch(["p"], ["x", "n"], [Url(SpotifyHost, "/album/1", ""), Url(SpotifyHost, SpotifyPlaylistPrefix + id, "")], [])
         == Some(ConvertSpotifyPlaylist(id, false))
  {
    SpotifyUrlRoundTrip(id, "");
    var urls := [Url(SpotifyHost, "/album/1", ""), Url(SpotifyHost, SpotifyPlaylistPrefix + id, "")];
    assert UrlCommand(urls[0], false).None?;
    assert urls[1..] == [urls[1]];
  }

  /**
   * A session that answers "x" then "L", then "Y", then "q" and "s" at the source prompt converts
   * the Spotify library, keeping duplicates; the pasted URLs are never read.
   */
  lemma LibrarySession(urls: seq<Url>)
    ensures Dispatch(["x", "L"], ["Y"], urls, ["q", "s"]) == Some(ConvertSpotifyLibrary(true))
  {
    assert JobAnswer("x").None? && JobAnswer("L") == Some(Library);
    assert SourceAnswer("q").None? && SourceAnswer("s") == Some(SpotifySide);
    assert FirstNamed(["q", "s"], SpotifySide) by {
      assert ["q", "s"][1] == "s";
    }
  }
}
