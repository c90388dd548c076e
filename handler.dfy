/**
 * The backend request handler: it lists the `.wav` keys, draws four of them,
 * turns each key into a song title, and assembles the question with the index
 * of the right title and the artist/scene metadata of the drawn song.
 *
 * Percent-decoding of file names is the parameter `unquote`, the listing is an
 * input (`None` when the storage call raised), the random draw is a `Draw`, and
 * the presigned audio URL is the parameter `presign`.
 */
module Handler {
  import opened Wrappers
  import opened Text
  import opened Protocol

  const NotEnoughMessage := "Not enough .wav files in S3 bucket."
  const GenericErrorMessage := "Error"

  /** `key.split("/")[-1]`: the text after the last `/`, or the whole key when there is none. */
  function LastSegment(key: string): (name: string)
    ensures |name| <= |key| && name == key[|key| - |name|..]
    ensures forall i :: 0 <= i < |name| ==> name[i] != '/'
    ensures |name| < |key| ==> key[|key| - |name| - 1] == '/'
  {
    key[LastIndexOf(key, '/') + 1..]
  }

  /** The file name depends only on what follows the last `/` of the key. */
  lemma LastSegmentIgnoresPrefix(prefix: string, key: string)
    ensures LastSegment(prefix + "/" + key) == LastSegment(key)
  {
    var s := prefix + "/" + key;
    assert s[|s| - |key|..] == key;
    assert s[|s| - |key| - 1] == '/';
  }

  /** The leading `\d{2}_\d{2}_` of a file name (ASCII digits). */
  predicate IdPrefix(n: string) {
    |n| >= 6 && IsDigit(n[0]) && IsDigit(n[1]) && n[2] == '_' &&
    IsDigit(n[3]) && IsDigit(n[4]) && n[5] == '_'
  }

  /**
   * Where `\.wav$` can match: `$` matches at the end of the string or just before a
   * final newline, so `.wav` starts 4 or 5 characters before the end.
   */
  function WavEnd(n: string): (p: Option<nat>)
    ensures p.Some? ==> p.value + 4 <= |n| && n[p.value..p.value + 4] == ".wav"
    ensures p.Some? ==> n[p.value + 4..] == "" || n[p.value + 4..] == "\n"
    ensures p.None? ==> !EndsWith(n, ".wav") && !EndsWith(n, ".wav\n")
  {
    if EndsWith(n, ".wav") then Some(|n| - 4)
    else if EndsWith(n, ".wav\n") then Some(|n| - 5)
    else None
  }

  predicate NoNewline(s: string) {
    forall i :: 0 <= i < |s| ==> s[i] != '\n'
  }

  /** `name` matches `^\d{2}_\d{2}_(.+)\.wav$` with the group equal to `title`. */
  ghost predicate MatchesTitlePattern(name: string, title: string) {
    IdPrefix(name) && |title| >= 1 && NoNewline(title) &&
    (name == name[..6] + title + ".wav" || name == name[..6] + title + ".wav\n")
  }

  /** `re.match(r"^\d{2}_\d{2}_(.+)\.wav$", name)` and its group 1. */
  function TitleMatch(name: string): (r: Option<string>)
    ensures r.Some? ==> MatchesTitlePattern(name, r.value)
    ensures r.None? ==> forall t :: !MatchesTitlePattern(name, t)
  {
    var p := WavEnd(name);
    if IdPrefix(name) && p.Some? && p.value >= 7 && NoNewline(name[6..p.value]) then
      assert name == name[..6] + name[6..p.value] + name[p.value..];
      Some(name[6..p.value])
    else
      assert forall t :: MatchesTitlePattern(name, t) ==> p.Some? && p.value == 6 + |t| && name[6..p.value] == t by {
        forall t | MatchesTitlePattern(name, t)
          ensures p.Some? && p.value == 6 + |t| && name[6..p.value] == t
        {
          if name == name[..6] + t + ".wav" {
            assert EndsWith(name, ".wav");
          } else {
            assert name == name[..6] + t + ".wav\n";
            assert EndsWith(name, ".wav\n");
            assert !EndsWith(name, ".wav");
          }
        }
      }
      None
  }

  /** `name` matches `^(\d{2}_\d{2})_.*\.wav$`, with `rest` what `.*` matched. */
  ghost predicate MatchesIdPattern(name: string, rest: string) {
    IdPrefix(name) && NoNewline(rest) &&
    (name == name[..6] + rest + ".wav" || name == name[..6] + rest + ".wav\n")
  }

  /** `re.match(r"^(\d{2}_\d{2})_.*\.wav$", filename)` and its group 1, the song id. */
  function SongId(filename: string): (id: Option<string>)
    ensures id.Some? ==> IdPrefix(filename) && id.value == filename[..5]
    ensures id.Some? <==> exists rest :: MatchesIdPattern(filename, rest)
  {
    var p := WavEnd(filename);
    var fits := IdPrefix(filename) && p.Some? && p.value >= 6 && NoNewline(filename[6..p.value]);
    assert forall rest :: MatchesIdPattern(filename, rest) ==> fits by {
      forall rest | MatchesIdPattern(filename, rest) ensures fits {
        IdPatternFixesWavEnd(filename, rest);
      }
    }
    if fits then
      assert filename == filename[..6] + filename[6..p.value] + filename[p.value..];
      assert MatchesIdPattern(filename, filename[6..p.value]);
      Some(filename[..5])
    else
      None
  }

  /** In a name that fits the song-id pattern, `.wav` starts right after what `.*` matched. */
  lemma IdPatternFixesWavEnd(name: string, rest: string)
    requires MatchesIdPattern(name, rest)
    ensures WavEnd(name) == Some(6 + |rest|) && name[6..6 + |rest|] == rest
  {
    if name == name[..6] + rest + ".wav" {
      assert EndsWith(name, ".wav");
    } else {
      assert EndsWith(name, ".wav\n");
      assert name[|name| - 1] == '\n';
    }
  }

  /**
   * A file name that fits the title pattern also fits the song-id pattern (whose `.*` may even
   * be empty), so it always carries a song id: its leading `DD_DD`.
   */
  lemma TitlePatternHasSongId(name: string, title: string)
    requires MatchesTitlePattern(name, title)
    ensures SongId(name) == Some(name[..5])
  {
  }

  /** There is a character other than `.` in `s`. */
  predicate HasNonDot(s: string) {
    exists i :: 0 <= i < |s| && s[i] != '.'
  }

  /**
   * `os.path.splitext(p)[0]`: the last `.` after the last `/` starts the extension,
   * unless everything before it in the file name is dots (a hidden file has no extension).
   */
  function SplitExtRoot(p: string): (root: string)
    ensures root <= p
  {
    var sep := LastIndexOf(p, '/');
    var dot := LastIndexOf(p, '.');
    if dot > sep && HasNonDot(p[sep + 1..dot]) then p[..dot] else p
  }

  /**
   * What `SplitExtRoot` removes, when it removes anything, is the extension: a `.` and then
   * neither `.` nor `/`; and the file name before it is not made of dots only.
   */
  lemma SplitExtRootShape(p: string)
    ensures var root := SplitExtRoot(p);
      root != p ==> p[|root|] == '.' && NoDotOrSlash(p[|root| + 1..]) &&
                    HasNonDot(p[LastIndexOf(p, '/') + 1..|root|])
  {
    var sep := LastIndexOf(p, '/');
    var dot := LastIndexOf(p, '.');
    if dot > sep && HasNonDot(p[sep + 1..dot]) {
      assert SplitExtRoot(p) == p[..dot];
      assert |p[..dot]| == dot;
      var ext := p[dot + 1..];
      assert forall i :: 0 <= i < |ext| ==> ext[i] == p[dot + 1 + i];
    }
  }

  /**
   * Conversely, a name kept whole has no removable extension: every `.` after the last `/`
   * that is followed by neither `.` nor `/` has only dots before it in the file name.
   */
  lemma SplitExtKeepsWhole(p: string, k: int)
    requires SplitExtRoot(p) == p
    requires LastIndexOf(p, '/') < k < |p| && p[k] == '.' && NoDotOrSlash(p[k + 1..])
    ensures !HasNonDot(p[LastIndexOf(p, '/') + 1..k])
  {
    var sep, dot := LastIndexOf(p, '/'), LastIndexOf(p, '.');
    assert k <= dot;
    assert k == dot;
    assert dot > sep;
  }

  predicate NoDotOrSlash(s: string) {
    forall i :: 0 <= i < |s| ==> s[i] != '.' && s[i] != '/'
  }

  /**
   * A stem followed by `.` and an extension without `.` or `/` loses exactly the extension,
   * provided the stem's file name (after its last `/`) is not all dots.
   */
  lemma SplitExtRemovesExtension(stem: string, ext: string)
    requires NoDotOrSlash(ext) && HasNonDot(stem[LastIndexOf(stem, '/') + 1..])
    ensures SplitExtRoot(stem + "." + ext) == stem
  {
    var p := stem + "." + ext;
    assert p == (stem + ".") + ext;
    LastIndexOfAppend(stem + ".", ext, '.');
    LastIndexOfAppend(stem + ".", ext, '/');
    LastIndexOfAppend(stem, ".", '/');
    assert LastIndexOf(stem + ".", '.') == |stem|;
    assert p[..|stem|] == stem;
  }

  /** A character that does not occur in `b` is last found in `a + b` where it is last found in `a`. */
  lemma {:induction false} LastIndexOfAppend(a: string, b: string, c: char)
    requires forall i :: 0 <= i < |b| ==> b[i] != c
    ensures LastIndexOf(a + b, c) == LastIndexOf(a, c)
    decreases |b|
  {
    if b == [] {
      assert a + b == a;
    } else {
      assert (a + b)[..|a + b| - 1] == a + b[..|b| - 1];
      LastIndexOfAppend(a, b[..|b| - 1], c);
    }
  }

  /** A name without any `.` keeps all of it. */
  lemma SplitExtWithoutDot(p: string)
    requires forall i :: 0 <= i < |p| ==> p[i] != '.'
    ensures SplitExtRoot(p) == p
  {
  }

  /** The decoded file name of a key. */
  function DecodedName(key: string, unquote: string -> string): string {
    unquote(LastSegment(key))
  }

  /**
   * `extract_title`: the title group when the decoded file name has the form
   * `DD_DD_<title>.wav`, and the name without its extension otherwise.
   */
  function ExtractTitle(key: string, unquote: string -> string): (title: string)
    ensures forall t :: MatchesTitlePattern(DecodedName(key, unquote), t) ==> title == t
    ensures (forall t :: !MatchesTitlePattern(DecodedName(key, unquote), t)) ==>
      title == SplitExtRoot(DecodedName(key, unquote))
  {
    var name := DecodedName(key, unquote);
    match TitleMatch(name)
    case Some(t) =>
      assert forall t' :: MatchesTitlePattern(name, t') ==> t' == t by {
        forall t' | MatchesTitlePattern(name, t') ensures t' == t {
          TitleIsUnique(name, t, t');
        }
      }
      t
    case None => SplitExtRoot(name)
  }

  /** The title pattern determines its group. */
  lemma TitleIsUnique(name: string, t1: string, t2: string)
    requires MatchesTitlePattern(name, t1) && MatchesTitlePattern(name, t2)
    ensures t1 == t2
  {
    var e1 := if name == name[..6] + t1 + ".wav" then ".wav" else ".wav\n";
    var e2 := if name == name[..6] + t2 + ".wav" then ".wav" else ".wav\n";
    assert name[|name| - 1] == e1[|e1| - 1] == e2[|e2| - 1];
    assert |t1| == |t2|;
    assert t1 == name[6..6 + |t1|];
  }

  /** A key whose decoded file name is `DD_DD_<title>.wav` yields that title. */
  lemma ExtractTitleOfSongFile(key: string, unquote: string -> string, id: string, title: string)
    requires |id| == 5 && IsDigit(id[0]) && IsDigit(id[1]) && id[2] == '_' && IsDigit(id[3]) && IsDigit(id[4])
    requires |title| >= 1 && NoNewline(title)
    requires DecodedName(key, unquote) == id + "_" + title + ".wav"
    ensures ExtractTitle(key, unquote) == title
  {
  }

  /** The title ignores any folder prefix of the key, such as `intro_music/`. */
  lemma ExtractTitleIgnoresPrefix(prefix: string, key: string, unquote: string -> string)
    ensures ExtractTitle(prefix + "/" + key, unquote) == ExtractTitle(key, unquote)
  {
    LastSegmentIgnoresPrefix(prefix, key);
  }

  /** `[k for k in keys if k.endswith(".wav")]`, in listing order. */
  function WavFiles(keys: seq<string>): (wav: seq<string>)
    ensures |wav| <= |keys|
    ensures forall k :: k in wav <==> k in keys && EndsWith(k, ".wav")
    ensures forall k :: multiset(wav)[k] == if EndsWith(k, ".wav") then multiset(keys)[k] else 0
  {
    if keys == [] then []
    else
      var rest := WavFiles(keys[..|keys| - 1]);
      var last := keys[|keys| - 1];
      assert keys == keys[..|keys| - 1] + [last];
      if EndsWith(last, ".wav") then rest + [last] else rest
  }

  /**
   * The filter keeps the listing order: filtering a concatenation concatenates the filtered
   * parts (with `WavFiles([k])` being `[k]` or `[]`, this pins down the filter).
   */
  lemma {:induction false} WavFilesOfConcat(a: seq<string>, b: seq<string>)
    ensures WavFiles(a + b) == WavFiles(a) + WavFiles(b)
    decreases |b|
  {
    if b == [] {
      assert a + b == a;
    } else {
      var init, last := b[..|b| - 1], b[|b| - 1];
      assert (a + b)[..|a + b| - 1] == a + init;
      assert b[..|b| - 1] == init;
      WavFilesOfConcat(a, init);
    }
  }

  /** `xs.index(x)`: the first position holding `x`. */
  function IndexOf<T(==)>(xs: seq<T>, x: T): (i: nat)
    requires x in xs
    ensures i < |xs| && xs[i] == x
    ensures forall j :: 0 <= j < i ==> xs[j] != x
  {
    if xs[0] == x then 0 else 1 + IndexOf(xs[1..], x)
  }

  /** What `random.sample(wav_files, 4)` and `random.choice(selected)` drew: four distinct positions and one of the four. */
  datatype Draw = Draw(positions: seq<nat>, pick: nat)

  predicate DrawFits(d: Draw, n: nat) {
    |d.positions| == 4 && d.pick < 4 &&
    (forall i :: 0 <= i < 4 ==> d.positions[i] < n) &&
    (forall i, j :: 0 <= i < j < 4 ==> d.positions[i] != d.positions[j])
  }

  /** The artist/scene table loaded from `artist_scene_info.json`: song id to its fields. */
  type InfoTable = map<string, map<string, string>>

  datatype Body = ErrorBody(error: string) | QuizBody(quiz: Quiz)
  datatype Response = Response(statusCode: int, body: Body)

  /**
   * The question built from the four drawn keys and the correct one among them.
   * Every option is the title of the key at the same position; the answer index is the
   * first position holding the correct title; metadata is looked up only for a song id
   * of the raw file name that is a key of the table.
   */
  function BuildQuiz(selected: seq<string>, pick: nat, info: InfoTable,
                     unquote: string -> string, presign: string -> string): (q: Quiz)
    requires |selected| == 4 && pick < 4
    ensures q.WellFormed() && |q.options| == 4
    ensures forall i :: 0 <= i < 4 ==> q.options[i] == ExtractTitle(selected[i], unquote)
    ensures q.options[q.answerIndex] == ExtractTitle(selected[pick], unquote)
    ensures q.answerIndex <= pick
    ensures forall j :: 0 <= j < q.answerIndex ==> q.options[j] != ExtractTitle(selected[pick], unquote)
    ensures q.audioUrl == presign(selected[pick])
    ensures var id := SongId(LastSegment(selected[pick]));
      (q.artistInfo.Some? || q.sceneInfo.Some?) ==> id.Some? && id.value in info
    ensures var id := SongId(LastSegment(selected[pick]));
      id.Some? && id.value in info ==>
        q.artistInfo == Get(info[id.value], "Artist") && q.sceneInfo == Get(info[id.value], "Scene")
  {
    var correct := selected[pick];
    var options := seq(4, i requires 0 <= i < 4 => ExtractTitle(selected[i], unquote));
    assert options[pick] == ExtractTitle(correct, unquote);
    var answer := IndexOf(options, ExtractTitle(correct, unquote));
    var id := SongId(LastSegment(correct));
    var found := id.Some? && id.value in info;
    var artist := if found then Get(info[id.value], "Artist") else None;
    var scene := if found then Get(info[id.value], "Scene") else None;
    Quiz(presign(correct), options, answer, artist, scene)
  }

  /** `lambda_handler`. */
  function LambdaHandler(listing: Option<seq<string>>, draw: Draw, info: InfoTable,
                         unquote: string -> string, presign: string -> string): (resp: Response)
    requires listing.Some? && |WavFiles(listing.value)| >= 4 ==> DrawFits(draw, |WavFiles(listing.value)|)
    ensures listing.None? ==> resp == Response(500, ErrorBody(GenericErrorMessage))
    ensures listing.Some? && |WavFiles(listing.value)| < 4 ==> resp == Response(500, ErrorBody(NotEnoughMessage))
    ensures resp.statusCode == 200 <==> listing.Some? && |WavFiles(listing.value)| >= 4
    ensures resp.statusCode == 200 ==>
      var wav := WavFiles(listing.value);
      resp.body.QuizBody? &&
      var q := resp.body.quiz;
      q.WellFormed() && |q.options| == 4 &&
      (forall i :: 0 <= i < 4 ==> q.options[i] == ExtractTitle(wav[draw.positions[i]], unquote)) &&
      q.options[q.answerIndex] == ExtractTitle(wav[draw.positions[draw.pick]], unquote) &&
      (forall j :: 0 <= j < q.answerIndex ==> q.options[j] != ExtractTitle(wav[draw.positions[draw.pick]], unquote)) &&
      q.audioUrl == presign(wav[draw.positions[draw.pick]]) &&
      var id := SongId(LastSegment(wav[draw.positions[draw.pick]]));
      ((q.artistInfo.Some? || q.sceneInfo.Some?) ==> id.Some? && id.value in info) &&
      (id.Some? && id.value in info ==>
         q.artistInfo == Get(info[id.value], "Artist") && q.sceneInfo == Get(info[id.value], "Scene"))
  {
    if listing.None? then Response(500, ErrorBody(GenericErrorMessage))
    else
      var wav := WavFiles(listing.value);
      if |wav| < 4 then Response(500, ErrorBody(NotEnoughMessage))
      else
        var selected := seq(4, i requires 0 <= i < 4 => wav[draw.positions[i]]);
        assert forall i :: 0 <= i < 4 ==> selected[i] in wav;
        Response(200, QuizBody(BuildQuiz(selected, draw.pick, info, unquote, presign)))
  }
}
