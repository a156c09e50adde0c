# Insight Wellbeing patient pages: a Dafny model

This project models the client-side logic of the patient pages of the Insight
Wellbeing web application, a React front end where patients fill in a
multi-page psychological history questionnaire, read their prescriptions and
clinician impressions, and move between dashboard sections.

What is modelled:

- **The questionnaire change handlers** (`handleChange` of pages 1, 5, 6 and 7).
  Each one takes the form record and one input event and returns the next
  record. Records are JSON-like values (`Json.Value`), and the object spreads
  the handlers use are `Json.With` and `Json.WithIn`. Every handler is
  specified with frame predicates: `SetsOnlyField` / `SetsOnlyMember` say that
  exactly one top-level key, or one member of one section, changes. The
  quirks of the source are proved as lemmas:
  - the mistyped keys `hospitalizedDetails` and `date_highschool`;
  - the `otherThoughts` checkbox that overwrites the text answer with a boolean;
  - the opinion radios that write back the answer already stored;
  - the `other` box on page 6 that changes nothing.
- **Submission framing.** This covers:
  - the record `{userId, pageNo, questions[, date]}`;
  - the two envelope shapes: passphrase mode `{data}` and raw-key mode
    `{iv, ciphertext}`;
  - the hexadecimal writing of the sixteen random IV bytes, with its reading
    direction and a round-trip proof;
  - the `loading` / `error` / `successful` status of pages 6 and 7, as the
    class `Submission.SubmitStatus`.

  The library calls (AES in its two modes, UTF-8 parsing, hex parsing,
  `JSON.stringify` and `JSON.parse`) are given as the total functions of a
  `CipherSuite` value. The model states which of them is applied to what. The
  hex writer `toString(CryptoJS.enc.Hex)` is not one of them: it is the
  concrete `Hex.Encode`, with `Hex.Decode` as its reference inverse.
- **Retrieval on the progress page.** This covers:
  - the trailing-NUL strip `replace(/\0+$/, '')`;
  - the decision between the new list and an error message;
  - the token/user guard;
  - the `dataFetched` latch.

  The page is the class `Progress.ProgressView`.
- **The checkbox caption formatter** (`Labels`), shared by pages 5, 6 and 7.
- **The dashboard section toggle**, the class `Dashboard.PatientDashboard`.

The random IV bytes, the random salt of passphrase mode, the submission date
and the network's answers are parameters.

## Model

| member | source | states |
|---|---|---|
| Json.With | src/FirstQuestionsForm.jsx:69-72 | `{...v, [k]: x}`: `k` holds `x`, the key set grows by `k` only, every other key reads as before |
| Json.WithIn | src/FirstQuestionsForm.jsx:184 | `{...v, [k]: {...v[k], [j]: x}}`: `v[k][j]` is `x`; other top-level keys are unchanged, and so are the other members of `v[k]` when it was an object; when it was not (`{...undefined, [j]: x}`), section `k` is exactly `{[j]: x}` |
| Json.Spread | src/FifthQuestionsForm.jsx:81 | spreading copies the properties of an object, and none of `undefined`, `null`, a boolean or a number |
| Json.WithSame | src/SeventhQuestionsForm.jsx:88-91 | writing back the value a key already holds returns the same object |
| FirstForm.Initial | src/FirstQuestionsForm.jsx:6-41 | the starting state: exactly the 29 text keys, `telephone` and `livingWith`; the text keys hold "", `telephone` is exactly `{day: "", evening: ""}`, `livingWith` is the empty list, and the shape the handlers need holds |
| FirstForm.RemoveAll | src/FirstQuestionsForm.jsx:66 | `filter(item => item !== name)`: no copy of the name is left, the rest is an order-preserving subsequence, and every other value keeps its count |
| FirstForm.HandleChange | src/FirstQuestionsForm.jsx:60-74 | checking appends the name at the end, keeps the earlier entries and grows the list by exactly one, even for a duplicate; unchecking is `RemoveAll`; a checkbox touches no key but `livingWith`; any other input sets only the field `name` |
| FirstForm.HandleChangeKeepsShape | src/FirstQuestionsForm.jsx:60-74 | after any change, `livingWith` is still a list and `telephone` still an object, unless a text input is itself named `livingWith` or `telephone` |
| FirstForm.DetailsNameMismatch | src/FirstQuestionsForm.jsx:627 | the details box writes `hospitalizedDetails`, a new key, and leaves the initial `hospitalizationDetails` as it was |
| FirstForm.SetDayPhone | src/FirstQuestionsForm.jsx:184 | only `telephone.day` changes; `telephone.evening` and every other field are kept |
| FirstForm.SetEveningPhone | src/FirstQuestionsForm.jsx:196 | only `telephone.evening` changes; `telephone.day` and every other field are kept |
| FirstForm.ToggleInternalUse | src/FirstQuestionsForm.jsx:732 | flips `internalUse` and keeps `externalUse` |
| FirstForm.ToggleExternalUse | src/FirstQuestionsForm.jsx:742 | flips `externalUse` and keeps `internalUse` |
| FirstForm.SubmittedRecord | src/FirstQuestionsForm.jsx:81-85 | exactly the keys `userId`, `pageNo`, `questions`, with page 1 and no date |
| FifthForm.SectionKey | src/FifthQuestionsForm.jsx:81 | the `data-section` value as a key, or "undefined" when the attribute is missing |
| FifthForm.HandleChange | src/FifthQuestionsForm.jsx:59-86 | a checkbox sets only `feelings[name]`; the `troubleRelaxing` radios set only `relaxationAndWishes.troubleRelaxing`; any other input sets only `formData[section][name]` |
| FifthForm.NoKeepsExplanation | src/FifthQuestionsForm.jsx:69-76 | answering "No" keeps the explanation already typed and the two wishes |
| FifthForm.SubmittedRecord | src/FifthQuestionsForm.jsx:92-96 | exactly `userId`, `pageNo`, `questions`, with page 5 and no date |
| SixthForm.ReplaceFirstAtLeftmost | src/SixthQuestionsForm.jsx:80 | `replace` with a string pattern substitutes the leftmost occurrence only |
| SixthForm.ReplaceFirstWithoutMatch | src/SixthQuestionsForm.jsx:80 | without an occurrence, `replace` returns the text unchanged |
| SixthForm.IndexOf | src/SixthQuestionsForm.jsx:80 | the search `replace` makes, from a start position: a position where the pattern occurs with no occurrence between the start and it, or none when there is no occurrence at all |
| SixthForm.ReplaceFirst | src/SixthQuestionsForm.jsx:80 | `name.replace("fear", "")`: either the text unchanged, or the text with one occurrence of the pattern, at a position where it occurs, traded for the replacement |
| SixthForm.TrimStart | src/SixthQuestionsForm.jsx:80 | `parseInt` skips leading white space: the result is a suffix, everything dropped is white space, and what is left does not start with white space |
| SixthForm.TrimSpaces | src/SixthQuestionsForm.jsx:80 | white space followed by text that does not start with white space trims to exactly that text |
| SixthForm.DigitPrefix | src/SixthQuestionsForm.jsx:80 | the digits `parseInt` reads: a prefix made of digits only, followed by a non-digit or the end |
| SixthForm.DigitPrefixOf | src/SixthQuestionsForm.jsx:80 | digits followed by a non-digit or the end are read as exactly those digits |
| SixthForm.ParseSigned | src/SixthQuestionsForm.jsx:80 | after the white space: NaN exactly when no digit follows the optional sign, and a negative value only after `-` |
| SixthForm.ParseInt | src/SixthQuestionsForm.jsx:80 | `parseInt(…, 10)`: NaN exactly when no digit follows the leading white space and optional sign, and a negative value only after `-` |
| SixthForm.ParseAfterSpaces | src/SixthQuestionsForm.jsx:80 | leading white space does not change the value |
| SixthForm.ParseSignedDigits | src/SixthQuestionsForm.jsx:80 | white space, an optional sign and digits, followed by a non-digit or the end, parse as the signed decimal value of those digits |
| SixthForm.ParseNoDigits | src/SixthQuestionsForm.jsx:80 | white space and an optional sign not followed by a digit parse as NaN |
| SixthForm.FearIndex | src/SixthQuestionsForm.jsx:80 | the index a name addresses; the inputs `fear1` .. `fear5` address indices 0 .. 4 |
| SixthForm.FearInputParse | src/SixthQuestionsForm.jsx:80 | for `fear1` .. `fear5`, removing `fear` leaves the digit, which parses as its value |
| SixthForm.OtherInputHasNoIndex | src/SixthQuestionsForm.jsx:220-226 | the `other` box has no index (NaN) |
| SixthForm.ReplaceAt | src/SixthQuestionsForm.jsx:83 | the index-preserving `map`: same length, the entry at the index replaced, every other entry kept |
| SixthForm.HandleChange | src/SixthQuestionsForm.jsx:64-86 | the branches in source order: a checkbox sets only `physicalSensations[name]`; a `data-section` sets only that top-level field; anything else changes only `fears`, and only at the parsed index |
| SixthForm.UnmatchedNameIsInert | src/SixthQuestionsForm.jsx:80-84 | a name whose index is NaN or outside the list leaves the whole state unchanged |
| SixthForm.OtherInputIsInert | src/SixthQuestionsForm.jsx:220-226 | typing in the `other` box leaves the whole state unchanged |
| SixthForm.FearsStayFive | src/SixthQuestionsForm.jsx:9 | `fears` keeps length five after any change that does not name it as a section |
| SixthForm.SubmittedRecord | src/SixthQuestionsForm.jsx:93-98 | exactly `userId`, `pageNo`, `questions`, `date`, with page 6 |
| SeventhForm.HandleChange | src/SeventhQuestionsForm.jsx:69-108 | checkbox: only `thoughts[name]`; the `bothered` radio: only `botheredByThoughts`, set to `value == "Yes"`; other radios: only `opinionStatements[name]`; `otherThoughts` text: only `thoughts.otherThoughts`; other text: only the field `name` |
| SeventhForm.OtherThoughtsCheckboxOverwritesText | src/SeventhQuestionsForm.jsx:212-219 | ticking the `otherThoughts` checkbox replaces the typed text with a boolean |
| SeventhForm.OpinionRadioIsFixedPoint | src/SeventhQuestionsForm.jsx:281-363 | a radio whose value is the stored answer leaves the state exactly as it was |
| SeventhForm.HighSchoolRadioMissesKey | src/SeventhQuestionsForm.jsx:369 | `date_highschool` adds its own key and never changes `datingHighSchool` |
| SeventhForm.SubmittedRecord | src/SeventhQuestionsForm.jsx:117-122 | exactly `userId`, `pageNo`, `questions`, `date`, with page 7 |
| Hex.EncodeByte | src/SixthQuestionsForm.jsx:101 | two lower-case digits per byte, high nibble first, which read back as the byte |
| Hex.Encode | src/SixthQuestionsForm.jsx:101 | `toString(CryptoJS.enc.Hex)`: twice as many characters as bytes, all lower-case digits |
| Hex.Decode | src/SixthQuestionsForm.jsx:103 | reading the text back yields half as many bytes as characters |
| Hex.DecodeEncode | src/SixthQuestionsForm.jsx:101-103 | reading the written IV back gives exactly the random bytes |
| Submission.Record | src/SixthQuestionsForm.jsx:93-98 | the key set, with `date` present exactly when a date is given, and the value of every key |
| Submission.ToJson | src/SixthQuestionsForm.jsx:108-111 | `{iv, ciphertext}` or `{data}`, with exactly those keys and values |
| Submission.ToJsonInjective | src/FirstQuestionsForm.jsx:98-100 | the posted body determines the envelope: the two shapes never share a key |
| Submission.LegacyPayload | src/FirstQuestionsForm.jsx:94-100 | the body pages 1 and 5 post: exactly one key, `data`, holding the passphrase-mode ciphertext of the serialised record under the salt that call drew |
| Submission.LegacyEnvelope | src/FifthQuestionsForm.jsx:98-105 | the ciphertext is the passphrase encryption of the serialised record under the secret and the salt that call drew |
| Submission.VersionedEnvelope | src/SeventhQuestionsForm.jsx:124-135 | the IV is 32 lower-case hex digits that read back as the random bytes, and the ciphertext is CBC under the UTF-8 secret and the parse of that same text |
| Submission.SubmitStatus.constructor | src/SixthQuestionsForm.jsx:52-54 | not loading, no error, no success message |
| Submission.SubmitStatus.Begin | src/SixthQuestionsForm.jsx:88-111 | `loading` becomes true, the messages are kept, and the payload is the versioned envelope of the record |
| Submission.SubmitStatus.Finish | src/SixthQuestionsForm.jsx:113-139 | `loading` is false on every path; a successful reply sets the success message, an unsuccessful one sets `error` to its message, a thrown error sets `error` to the prefixed description |
| Labels.ToUpper | src/FifthQuestionsForm.jsx:242 | a lower-case letter becomes its capital, and that capital lower-cases back; anything else is kept |
| Labels.SpaceBeforeCapitals | src/FifthQuestionsForm.jsx:242 | `replace(/([A-Z])/g, ' $1')`: one extra character per capital, every capital has a space immediately before it, and a first character that is not a capital stays first |
| Labels.UpperFirst | src/SixthQuestionsForm.jsx:215 | `replace(/^./, …)`: only the first character can change, to its capital, and not at all when it is a line terminator |
| Labels.Label | src/FifthQuestionsForm.jsx:242 | the caption is as long as the key plus its number of capitals, every capital after the first character has a space immediately before it, and a key that starts lower-case starts its caption with that letter's capital |
| Labels.RemoveInsertedSpaces | src/FifthQuestionsForm.jsx:242 | removing the spaces from a spaced key without its own spaces restores the key |
| Labels.UnlabelInvertsLabel | src/FifthQuestionsForm.jsx:242 | for a key that starts lower-case and has no spaces, removing the spaces and lower-casing the first letter gives the key back |
| Progress.StripTrailingNul | src/Progress.jsx:57 | the result is a prefix, the removed suffix is all NUL, and the result does not end in NUL |
| Progress.StripExact | src/Progress.jsx:89 | text that does not end in NUL, padded with NULs, strips to exactly that text |
| Progress.StripIdempotent | src/Progress.jsx:57 | stripping twice is stripping once |
| Progress.StripKeepsInterior | src/Progress.jsx:57 | everything up to the last non-NUL character is kept, NULs included |
| Progress.StripIgnoresPadding | src/Progress.jsx:89 | extra NUL padding does not change the result |
| Progress.Retrieve | src/Progress.jsx:50-67 | an unsuccessful reply yields its message; a thrown fetch, a failed decryption and a failed parse each yield the prefix followed by that error's own description; the list is loaded exactly when the reply is successful and its decryption and the parse of the stripped text both succeed, and it is that parse |
| Progress.Decrypted | src/Progress.jsx:51-56 | the plaintext of a reply: when CBC decryption inverts encryption, a ciphertext that encrypts some text under the UTF-8 secret and the parse of the received IV decrypts to exactly that text |
| Progress.ReceivedIv | src/Progress.jsx:52 | `CryptoJS.enc.Hex.parse(result.iv)`: when the library's hex parsing agrees with the reference reading, the IV bytes are the reading of the received text |
| Progress.DecryptMirrorsEncrypt | src/Progress.jsx:51-55 | a reply carrying a versioned envelope is decrypted with the key and IV bytes that encrypted it, so, when CBC decryption inverts encryption, it decrypts to the serialised record; when hex parsing agrees with the reference reading, the IV bytes are the random bytes drawn at submission |
| Progress.LengthPositive | src/Progress.jsx:104 | `list.length > 0` throws exactly for `null`, and otherwise holds exactly when the list has entries |
| Progress.ProgressView.constructor | src/Progress.jsx:11-17 | both lists empty, no error, `dataFetched` false |
| Progress.ProgressView.GetPrescription | src/Progress.jsx:38-68 | nothing changes without a token or user; otherwise the list is replaced wholesale on success, or `error` is set and the list kept |
| Progress.ProgressView.GetImpression | src/Progress.jsx:70-100 | the same for the impression list |
| Progress.ProgressView.SyncFetched | src/Progress.jsx:103-107 | the effect throws exactly when the short-circuit `||` reaches a `null` list; otherwise `dataFetched` becomes true once either list has entries; it is never reset |
| Dashboard.Toggled | src/PatientDashboard.jsx:13-15 | the section closes exactly when it was the open one; otherwise it becomes the open one |
| Dashboard.ToggleTwice | src/PatientDashboard.jsx:14 | toggling a section twice returns to a null start, or to a start where that same section was open |
| Dashboard.Shown | src/PatientDashboard.jsx:41-44 | a panel is rendered exactly when it is the active section |
| Dashboard.AtMostOneShown | src/PatientDashboard.jsx:41-44 | with distinct panel names, at most one panel is rendered |
| Dashboard.NothingShownWhenAbsent | src/PatientDashboard.jsx:41-44 | no panel is rendered when no section, or a section without a panel, is open |
| Dashboard.PatientDashboard.constructor | src/PatientDashboard.jsx:11 | no section open and nothing rendered |
| Dashboard.PatientDashboard.Toggle | src/PatientDashboard.jsx:13-15 | the new `activeSection` is `Toggled` of the old one |
| Dashboard.PatientDashboard.Rendered | src/PatientDashboard.jsx:41-44 | at most one panel, and exactly the one that is active |

## Left out

- AES in both modes, PKCS#7 padding, the passphrase key derivation, and the UTF-8 codec, hex parsing and the Base64 codec of crypto-js are library code. They are the given functions of `Submission.CipherSuite`. No property of them (decrypting an encryption, rejecting tampered text) is claimed.
- `JSON.stringify` and `JSON.parse` are engine built-ins and are also given functions. A parse failure is modelled only as the thrown error it becomes.
- `CryptoJS.lib.WordArray.random(16)`, the eight-byte salt that `CryptoJS.AES.encrypt` draws in passphrase mode, and `new Date().toISOString()` are not deterministic. They are the parameters `random` (sixteen bytes), `salt` (eight bytes) and `date`.
- `fetch`, the bearer header, `response.json()`, `localStorage`, navigation and `console` are left out. A request's result is the `PostResponse` / `GetResponse` parameter.
- The effect that starts both fetches when `userId` is set is left out, and so is the order in which their answers arrive. The two fetches run concurrently, and each answer is applied as one call of `GetPrescription` / `GetImpression`.
- Clearing messages after 5000 ms with `setTimeout` is timing behaviour and is left out.
- JSX rendering, CSS and the jsPDF report are left out. For the dashboard, only the choice of rendered panel is modelled.
- The replies to pages 1 and 5 are not modelled, only the payload they post. Page 1 awaits the reply and branches on `response.ok`: on success it alerts and then calls `history.goBack()`, which throws because `useNavigate` returns a function, and the catch only logs (src/FirstQuestionsForm.jsx:107-125). Page 5 chains the reply to `console.log` without awaiting it. Neither page changes any state of the form, so their reply handling is alerts and logging only.
- Json.Spread: spreading a string or an array (`{...'ab'}` gives the index keys `"0"`, `"1"`) is not modelled. `Json.Spread` copies nothing from such values, and the forms never spread one.
- The key order of JavaScript objects is not modelled, because records are maps.
- No rendered input of page 1 is both a checkbox and wired to `handleChange`: the two approval boxes have their own toggles. The checkbox branch is modelled as written.
- Labels.ToUpper: maps only `a`-`z` to capitals. `toUpperCase` also changes other lower-case letters, so a key whose first character is a non-ASCII letter is not modelled.
- Progress.HasEntries: `.length > 0` is modelled for arrays, strings and objects with a numeric `length` property. JavaScript's coercion of other `length` values (strings, booleans) is left out. The `TypeError` on a `null` list is modelled by `Progress.LengthPositive`.
- Progress.ProgressView.SyncFetched: the render reads `prescriptions.length` and `impression.length` too (src/Progress.jsx:215-227), so a `null` list also makes rendering throw. Rendering is not modelled, so that crash is not.
- FirstForm.HandleChange: requires `formData` to be an object and, for a checkbox, `livingWith` to be a list. Otherwise the spread or `.filter` would throw a `TypeError`. Neither case arises from the rendered inputs, so those paths are not modelled.
- SixthForm.HandleChange: requires `formData` to be an object and, for an input that is neither a checkbox nor carries a `data-section`, `fears` to be a list. Otherwise `formData.fears.map` would throw a `TypeError`. No rendered input reaches that path, so it is not modelled.
- Submission.SubmitStatus.Finish: the reply's `successful` is a boolean and its `message` a string. The source tests `result.successful` for truthiness and may read a missing `message` (`undefined`), which the model does not distinguish from an empty one. Both render nothing.
- Progress.Retrieve: a reply whose `message` is missing (`undefined`) is not distinguished from one with an empty message, because `Reply.message` is a string.
- SixthForm.ParseInt: `Json.Value` numbers are unbounded integers, so the precision loss of `parseInt` on very long digit strings is not modelled.
- Hex.Decode: the model's reading of hexadecimal text is the reference reading of well-formed text. What `CryptoJS.enc.Hex.parse` does with malformed text is library behaviour and is left out.
