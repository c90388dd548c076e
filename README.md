# intro72 quiz — a Dafny model of its logic

The intro72 quiz is a browser game. A backend function draws four songs from a storage bucket
of `.wav` intros. It sends their titles as options, together with the index of the one whose
intro is played. The browser app lets the player pick one option. It judges the pick and keeps
a streak of consecutive correct answers in the browser's session storage. It shows a reward
popup when the streak reaches a milestone (7, 39, 59, 72 or 272).

The model has these modules:

- `Achievement` (`achievement.dfy`): the reward table and the `getAchievementData` lookup. The
  lookup picks the highest milestone reached (`>=`). The popup gate fires only on an exact
  milestone. The lemmas relate the two.
- `QuizApp` (`app.dfy`): the app component as a class `App`. Its fields are the component's
  state: `quiz`, `selectedIndex`, `isCorrect`, `correctStreak`, `quizNumber`,
  `showAchievement`, and the session storage as a map. Its methods are the click handler, the
  reset when a question arrives, the advance button, the popup's close button, and the
  load/persist effects for the streak. The option-colouring rule is a pure function.
- `Handler` (`handler.dfy`): `extract_title`, `os.path.splitext`, the two regular expressions,
  the `.wav` filter, `list.index`, and `lambda_handler` as pure functions.
- `Protocol` (`protocol.dfy`): the question record that the backend sends and the app
  receives. `WellFormed()` means the answer index points into the options.
- `Decimal`, `Text` and `Wrappers`: `toString`/`parseInt` on digit strings, string helpers, and
  `Option`.

Modelling choices:

- The app's environment becomes inputs. A question that arrived is the argument of
  `QuizLoaded`. The session storage that survives a reload is the constructor's argument.
  React runs an effect after an event only when the streak changed. `App.Answer` models that:
  it is a click followed by that effect.
- The backend's environment becomes inputs too:
  - The object listing is an `Option`; `None` stands for a failing storage call, which the
    handler's `except` turns into status 500.
  - `random.sample` and `random.choice` become a `Draw`: four distinct positions and one of
    the four.
  - The presigned URL is the function parameter `presign`.
  - Percent-decoding (`urllib.parse.unquote`) is the function parameter `unquote`.
  - The artist/scene table is a map from song id to a map of fields.
- The regular expressions are modelled with Python's semantics:
  - `.` does not match a newline;
  - `$` matches at the end or just before a final newline;
  - `re.match` anchors at the start.
- The persist rule does not do what its own comment says. The comment at
  `web/src/App.tsx:172` says only the initial value of 0 should go unsaved, so that it does not
  overwrite a stored streak. The condition at line 173 skips every zero once a value is stored.
  The model follows the condition. `ReloadAfterMiss` shows the consequence: after a miss, a
  reload restores the streak from before the miss.

## Model

| member | source | states |
|---|---|---|
| `Achievement.GetAchievementData` | web/src/App.tsx:14-59 | the empty "transparent" descriptor (empty title) comes back exactly when the streak is below 7 |
| `Achievement.LookupIsHighestReached` | web/src/App.tsx:14-58 | the lookup returns the table tier of the largest milestone that is at most the streak |
| `Achievement.HighestReachedExists` | web/src/App.tsx:14-49 | every streak of at least 7 has a highest reached milestone, and the lookup returns that milestone's tier |
| `Achievement.GateAgreesWithLookup` | web/src/App.tsx:229-230 | when the exact-match gate fires, the `>=` lookup returns the tier of that same milestone, and its message is not empty |
| `Achievement.GateIsStricterThanLookup` | web/src/App.tsx:229-233 | every streak of at least 7 that is not itself a milestone raises no popup, although the lookup returns a non-empty tier |
| `Achievement.StreakEightRaisesNothing` | web/src/App.tsx:43-49 | streak 8 raises no popup, although the lookup returns the 7 tier |
| `QuizApp.OptionColour` | web/src/App.tsx:313-322 | no colour without a selection; with a selection the answer is light green; an option is light coral iff it is selected and not the answer; every other option is uncoloured |
| `QuizApp.ColouringAfterSelection` | web/src/App.tsx:313-322 | after a selection in a well-formed question, the green options are exactly the answer; the coral options are the selection if it is wrong and none otherwise |
| `QuizApp.LoadedStreak` | web/src/App.tsx:159-168 | a missing or empty stored string leaves the streak as it is |
| `QuizApp.LoadedStreakRoundTrip` | web/src/App.tsx:163-175 | a streak that was saved with `toString` is loaded back by `parseInt` unchanged |
| `QuizApp.ZeroNeverOverwrites` | web/src/App.tsx:171-177 | a zero streak is written iff nothing is stored yet |
| `QuizApp.App.PopupData` | web/src/App.tsx:266-268 | while the popup flag is up, the popup shows the table tier of the current streak, with a non-empty title and message |
| `QuizApp.App.constructor` | web/src/App.tsx:143-177 | initial state (no question, no selection, streak 0, quiz number 0, no popup); on mount a missing stored value is written as "0", and a non-empty stored value is parsed into the streak; the invariants hold afterwards |
| `QuizApp.App.PersistStreak` | web/src/App.tsx:171-177 | the stored value becomes the streak's decimal string when the streak is positive or nothing is stored; otherwise storage is unchanged |
| `QuizApp.App.QuizLoaded` | web/src/App.tsx:185-188 | the new question replaces the old one; selection and correctness are cleared; streak, quiz number and storage are unchanged; the answer option of a well-formed question is clickable |
| `QuizApp.App.HandleClick` | web/src/App.tsx:219-238 | records the clicked index and whether it equals the answer; a correct click adds one to the streak, a wrong one resets it to 0; the popup flag is set iff correct and the new streak is exactly a milestone; afterwards no option can be clicked and advance is offered |
| `QuizApp.App.Answer` | web/src/App.tsx:219-238 | a click followed by the storage effect: a correct answer stores the new streak, a miss leaves storage untouched, and storage stays in sync with a positive streak |
| `QuizApp.App.Advance` | web/src/App.tsx:409-411 | offered only once the answer is judged; adds exactly one to the quiz number and changes nothing else |
| `QuizApp.App.ClosePopup` | web/src/App.tsx:269 | the popup's close button clears the popup flag and nothing else |
| `QuizApp.ReloadRestoresStreak` | web/src/App.tsx:159-177 | a reload on a storage in sync with a positive streak restores that streak |
| `QuizApp.ReloadAfterMiss` | web/src/App.tsx:171-177 | after a miss the streak is 0, but a reload restores the streak from before the miss |
| `Decimal.ToDecimal` | web/src/App.tsx:175 | `toString` yields a non-empty digit string without leading zeros ("0" for zero) |
| `Decimal.ParseDecimal` | web/src/App.tsx:164 | `parseInt` of a non-empty digit string is zero iff all its digits are '0' (the empty string is never parsed, being falsy) |
| `Decimal.ParseToDecimal` | web/src/App.tsx:164-175 | parsing the decimal spelling of n gives back n |
| `Handler.LastSegment` | api/handler.py:71 | the file name is the suffix of the key after the last `/`, contains no `/`, and is the whole key when the key has no `/` |
| `Handler.LastSegmentIgnoresPrefix` | api/handler.py:71 | the file name of `prefix/key` is that of `key` |
| `Handler.TitleMatch` | api/handler.py:73 | a match yields a title that fits `^\d{2}_\d{2}_(.+)\.wav$`; no match means no title fits |
| `Handler.TitleIsUnique` | api/handler.py:73-75 | a file name fits the title pattern with at most one title |
| `Handler.SplitExtRoot` | api/handler.py:77 | `splitext(p)[0]` is a prefix of p |
| `Handler.SplitExtRootShape` | api/handler.py:77 | what is removed is a final extension: a `.`, then no `.` or `/`; what remains of the file name is not all dots |
| `Handler.SplitExtRemovesExtension` | api/handler.py:77 | a stem whose file name (after its last `/`) is not all dots, followed by `.` and an extension without `.` or `/`, loses exactly the extension |
| `Handler.SplitExtKeepsWhole` | api/handler.py:77 | conversely, when the name is kept whole, every `.` after the last `/` that is followed by neither `.` nor `/` has only dots before it in the file name |
| `Handler.SplitExtWithoutDot` | api/handler.py:77 | a name with no `.` is kept whole |
| `Handler.ExtractTitle` | api/handler.py:69-77 | when the decoded file name fits the title pattern, the result is its title; otherwise it is the decoded name without its extension |
| `Handler.ExtractTitleOfSongFile` | api/handler.py:71-75 | a decoded file name `DD_DD_<title>.wav` (non-empty title without newlines) yields exactly `<title>` |
| `Handler.ExtractTitleIgnoresPrefix` | api/handler.py:71 | a folder prefix such as `intro_music/` does not change the title |
| `Handler.SongId` | api/handler.py:44-46 | the raw file name has a song id exactly when it fits `^(\d{2}_\d{2})_.*\.wav$` (stated as a pattern decomposition), and the id is then its leading `DD_DD` |
| `Handler.IdPatternFixesWavEnd` | api/handler.py:45 | in a name that fits the song-id pattern, the `.wav` that `$` allows starts right after what `.*` matched |
| `Handler.TitlePatternHasSongId` | api/handler.py:45-46 | a file name that fits the title pattern always has a song id: its leading `DD_DD` |
| `Handler.WavFiles` | api/handler.py:23 | the candidates are exactly the listed keys ending in `.wav`, each as many times as it is listed, and there are no more of them than keys |
| `Handler.WavFilesOfConcat` | api/handler.py:23 | the filter keeps listing order: filtering a concatenation concatenates the filtered parts |
| `Handler.IndexOf` | api/handler.py:41 | `list.index` gives the first position holding the value |
| `Handler.BuildQuiz` | api/handler.py:29-61 | four options, option i being the title of drawn key i; the answer index is the first position of the correct key's title, so it is a valid index; the audio URL is that of the correct key; artist/scene are set only when the raw song id is a key of the table, and then are its "Artist"/"Scene" fields |
| `Handler.LambdaHandler` | api/handler.py:18-67 | a failing listing gives 500 "Error"; fewer than 4 `.wav` keys give 500 "Not enough .wav files in S3 bucket."; otherwise 200 with a well-formed four-option question: option i is the title of the i-th drawn `.wav` key, the answer index is the first position of the correct key's title, the audio URL is the correct key's, and artist/scene come from the table entry of the raw song id, or are absent when there is none |

## Left out

- Rendering, styles, animation and the popup's layout: presentation only.
- The network fetch of a question, its promise chain, the alert and console logging: I/O. A
  question that arrived is the input of `QuizLoaded`. A stale response applied late is
  therefore just another `QuizLoaded`.
- The first-mount guard `hasFetched`: it only guards against React running effects twice.
- The audio volume set through a timer: a floating-point property of a browser media element.
- Storage failures and their try/catch: storage is a map that never fails.
- `QuizApp.LoadedStreak`: `parseInt` is modelled only on strings of decimal digits. A stored
  value with other characters (leading junk, NaN) is excluded by the requires.
- Number precision: the streak is unbounded; JavaScript numbers lose precision above 2^53.
- The storage listing, the presigned URL generation and `boto3`: foreign calls. The presigned
  URL is an opaque function of the key. A failure of the presigning call is not modelled.
- The bodies of `random.sample` and `random.choice`: any fitting `Draw` is allowed.
- The body of `urllib.parse.unquote`, i.e. the percent-decoding of section 2.1 of RFC 3986
  with UTF-8 decoding: it is an arbitrary function parameter.
- Unicode digits: Python's `\d` also matches non-ASCII decimal digits; the model accepts only
  '0' to '9'.
- Loading the artist/scene file and `json.dumps` in `_response`: file I/O and serialisation.
  The response keeps the status code and the body value; the CORS and content-type headers
  are not modelled.
- The deployment stack, the CDK app and its test: declarations with no behaviour.
