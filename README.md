# Podcast generator core in Dafny

This project models the script-to-speech pipeline of the podcast generator.
It has three parts, one module each. Two helper modules support them.

- `Ssml` (ssml.dfy) is the `SSMLProcessor`. It holds:
  - the 41 Dutch emotion tags with their stability and style values;
  - the five legacy English tags and their mapping onto Dutch tags;
  - `extract_emotion`, the first tag in table order found in a line;
  - `_clean_emotion_markers`, which deletes every tag by substring replacement and then strips the text;
  - `_process_emphasis_markers`, the fixed chain of rewrites into the `<emphasis>`, `<prosody>` and `<break>` elements of the W3C Speech Synthesis Markup Language 1.1 (sections 3.2.2, 3.2.4 and 3.2.3);
  - `process_text`, which cleans and then rewrites.

  The tag-removal and search loops are methods proved against specification functions. The regex chain is a composition of recursive left-to-right scanners. Python's Unicode-aware `\w` is a parameter `w: WordClass`: any character class that agrees with ASCII `\w` on ASCII characters.
- `Generator` (generator.dfy) is `PodcastGenerator`. It is a class holding:
  - the host voices, volumes and personality settings set by its constructor;
  - the speech-synthesis client, as an oracle that reports success or failure;
  - the markup processor, as a record of two function values (`Markup`).

  `CreatePodcast` is the `create_podcast` loop. It splits the script into lines, routes each line to host A, host B, a pause or nothing, and then hands the file list and pause indices to the audio step. Its result is tied to `Run`, a fold of `Step` over the lines. The lemmas about `Run` and `Step` state the loop's invariants and its routing.
- `Audio` (audio.dfy) is `AudioProcessor.combine_audio_segments`. Audio is abstract:
  - a loaded file is a `Speech` piece carrying its gain offset in dB;
  - a gap is a `Silence` piece carrying its length in milliseconds;
  - the exported result is the output path with the track, before normalisation.

  File existence is an oracle `onDisk`. The method's two loops are proved against `Loaded` (the filter and the volume choice) and `Mixdown` (the gap interleaving).
- `Text` (text.dfy) models the Python string operations the core relies on: `in`, `startswith`, `replace`, `strip` (with Python's whitespace set), `split('\n')` and `str(int)`. `Options` (options.dfy) is an option type.

Some behaviour one might expect of such a pipeline is not what the code does. The model follows the code:
- Stripping emotion tags is not idempotent. `CleaningNotIdempotent` shows `[C[CALM]ALM]` cleaning to `[CALM]`, which cleans again to the empty string.
- There is no catch-all removal of unknown `[...]` tokens, and no whitespace collapsing.
- There are no voice profiles and no alias tables. The speaker is parsed only by the prefixes `[HOST A]:` and `[HOST B]:`, not by a general `[label]:` pattern.
- There is no comment-line skipping.
- The emotion is looked up in the stripped line, prefix included, not in the untrimmed line.
- A run that produces no segment is not a fatal outcome of the generator. The audio step returns `None` and `CreatePodcast` passes it on.

## Model

| member | source | states |
|---|---|---|
| `Ssml.AsSettings` | src/ssml_processor.py:17-71 | each table value is a dict with exactly the keys `stability` and `style`, carrying the entry's two numbers |
| `Ssml.DutchTagsInOrder` | src/ssml_processor.py:15-72 | the canonical tags are the table keys in declaration order, and each is bracketed by `[` and `]` and opens with a lower-case letter |
| `Ssml.LegacyTagShapes` | src/ssml_processor.py:12-81 | there are five legacy tags, listed in the same order as the mapping's keys, each bracketed by `[` and `]` with only capitals between |
| `Ssml.LegacyTargetsKnown` | src/ssml_processor.py:75-81 | every legacy tag maps to a key of the canonical table, so the `get(..., {})` fallback is never taken |
| `Ssml.FirstHit` | src/ssml_processor.py:92-94 | the result is the first entry in table order whose key occurs in the line; no earlier key occurs; `None` only when no key occurs |
| `Ssml.KeyIndex` | src/ssml_processor.py:99 | the result is the position of the given key in the table, or `None` exactly when the key is absent |
| `Ssml.Scan` | src/ssml_processor.py:92-98 | the search loop with early return finds the same entry as `FirstHit` |
| `Ssml.ExtractEmotion` | src/ssml_processor.py:89-101 | the canonical search, then the legacy search, then `{}`, as `EmotionFor` defines them |
| `Ssml.EmotionFor` | src/ssml_processor.py:89-101 | defines the result of `extract_emotion`: first canonical tag in table order, else the first legacy tag's target, else `{}`; characterised by `CanonicalTagDecides`, `LegacyTagDecides` and `NoTagNoSettings` |
| `Ssml.DutchGet` | src/ssml_processor.py:99 | defines `dutch_emotions.get(tag, {})`; `LegacyTargetsKnown` shows the fallback is never taken for a legacy target |
| `Ssml.CanonicalTagDecides` | src/ssml_processor.py:91-94 | when canonical tag k is the first in table order found in the line, its settings are returned, whatever legacy tags occur |
| `Ssml.LegacyTagDecides` | src/ssml_processor.py:96-99 | with no canonical tag present, the first legacy tag in mapping order decides; the result is its target's settings and is never `{}` |
| `Ssml.NoTagNoSettings` | src/ssml_processor.py:101 | a line without any canonical or legacy tag yields `{}` |
| `Ssml.EmotionSettingsShape` | src/ssml_processor.py:15-101 | the lookup yields `{}` or a dict with exactly stability and style, both within [0, 1] |
| `Ssml.TableOrderNotLeftmost` | src/ssml_processor.py:92-94 | in `[blij] en [vrolijk]` the tag `[vrolijk]`, earlier in the table, wins although `[blij]` is leftmost |
| `Ssml.RemoveTags` | src/ssml_processor.py:106-111 | replacing each tag by nothing never lengthens the text, and leaves it unchanged when no tag occurs |
| `Ssml.RemoveTagsAppend` | src/ssml_processor.py:105-111 | removing two lists of tags is removing the first list, then the second |
| `Ssml.RemoveEach` | src/ssml_processor.py:106-107 | the loop that reassigns `text` for each tag computes `RemoveTags` |
| `Ssml.CleanEmotionMarkers` | src/ssml_processor.py:103-113 | canonical tags removed, then legacy tags, then stripped, as `Cleaned` defines it |
| `Ssml.Cleaned` | src/ssml_processor.py:103-113 | the cleaned text is never longer than the input |
| `Ssml.CleanedWithoutBrackets` | src/ssml_processor.py:103-113 | text containing no `[` is only stripped |
| `Ssml.LegacyPassCalmOnly` | src/ssml_processor.py:110-111 | on text without `E`, `T` and `S`, the legacy pass only removes `[CALM]` |
| `Ssml.LegacyPassJoins` | src/ssml_processor.py:110-111 | the legacy pass turns `[C[CALM]ALM]` into `[CALM]` |
| `Ssml.LegacyPassRemoves` | src/ssml_processor.py:110-111 | the legacy pass turns `[CALM]` into the empty string |
| `Ssml.CleaningNotIdempotent` | src/ssml_processor.py:103-113 | cleaning `[C[CALM]ALM]` gives `[CALM]`, and cleaning that gives the empty string, so cleaning twice differs from cleaning once |
| `Ssml.ProcessText` | src/ssml_processor.py:83-87 | cleaning followed by the markup rewrite, as `Processed` defines it |
| `Ssml.Processed` | src/ssml_processor.py:83-87 | defines `process_text` as cleaning followed by `EmphasisMarkers`; its properties are the lemmas `ProcessedPlain`, `EmotionTagAloneVanishes` and `LegacyTagAloneVanishes` |
| `Ssml.ProcessedPlain` | src/ssml_processor.py:83-164 | text without `[`, `*`, `_`, `~` and `(`, whose stripped form has no word-bounded run of two or more capitals, comes out of `process_text` only stripped; single capitals, as at the start of a sentence, are allowed |
| `Ssml.EmotionTagAloneVanishes` | src/ssml_processor.py:83-113 | a line that is one canonical emotion tag and nothing else is processed to the empty text |
| `Ssml.LegacyTagAloneVanishes` | src/ssml_processor.py:83-113 | a line that is one legacy English tag and nothing else is processed to the empty text |
| `Ssml.LoneTagRemoved` | src/ssml_processor.py:106-111 | a lone bracketed tag put through the removal loop either stays or vanishes after each removal, and is gone once its own removal has run |
| `Ssml.EmphasisMarkers` | src/ssml_processor.py:115-164 | defines `_process_emphasis_markers` as the span passes, then the capitals pass, then the phrase passes; its properties are `PlainTextUnchanged`, the span lemmas and the marker lemmas |
| `Ssml.SpanPasses` | src/ssml_processor.py:120-129 | defines the four span substitutions in source order: `**`, `*`, `_`, `~` |
| `Ssml.RewriteCaps` | src/ssml_processor.py:132 | defines the `\b[A-Z]{2,}\b` substitution as a left-to-right scan; `CapsUntouched`, `CapsWordStrong`, `CapsPrefix` and `CapsAcross` state what it does |
| `Ssml.PhrasePasses` | src/ssml_processor.py:135-162 | defines the pause replacements followed by the prosody replacements, in source order |
| `Ssml.RewriteSpans` | src/ssml_processor.py:120-129 | a delimited-span pass leaves text without its delimiter unchanged |
| `Ssml.SpanRewritten` | src/ssml_processor.py:120-129 | in `a + d{k} x d{k} + b`, with `a` and `x` free of `d` and `x` non-empty, the scan copies `a`, turns the span into open tag, x, close tag, and goes on with `b` |
| `Ssml.SpansUndoubled` | src/ssml_processor.py:120 | text with no doubled delimiter is left alone by the `**x**` pass |
| `Ssml.StrongSpan` | src/ssml_processor.py:120-164 | `**x**` between texts `a` and `b` becomes strong emphasis, not two moderate spans, and the text around it is kept; `a`, `x` and `b` must hold no `*`, `_`, `~` or `(` and no word-bounded capital run, and `x` must be non-empty |
| `Ssml.ModerateSpan` | src/ssml_processor.py:120-164 | `*x*` between texts `a` and `b` survives the strong pass and becomes moderate emphasis, and the text around it is kept; `a`, `x` and `b` must hold no `*`, `_`, `~` or `(` and no word-bounded capital run, and `x` must be non-empty |
| `Ssml.ReducedSpan` | src/ssml_processor.py:120-164 | `_x_` between texts `a` and `b` becomes reduced emphasis, and the text around it is kept; `a`, `x` and `b` must hold no `*`, `_`, `~` or `(` and no word-bounded capital run, and `x` must be non-empty |
| `Ssml.SoftSpan` | src/ssml_processor.py:120-164 | `~x~` between texts `a` and `b` becomes `<prosody volume="soft">`, and the text around it is kept; `a`, `x` and `b` must hold no `*`, `_`, `~` or `(` and no word-bounded capital run, and `x` must be non-empty |
| `Ssml.CapitalWord` | src/ssml_processor.py:115-164 | a word of two or more capitals in a sentence ("de NOS zegt") becomes strong emphasis when the text around it meets it with non-word characters and has no such word itself; the rest is kept |
| `Ssml.CapsWordStrong` | src/ssml_processor.py:132 | the capitals scan wraps an all-capital run of length two or more that has a word boundary on both sides, and copies the text before and after it |
| `Ssml.CapsUntouched` | src/ssml_processor.py:132 | text with no word-bounded run of two or more capitals is left alone by the capitals pass |
| `Ssml.NoUpperNoCaps` | src/ssml_processor.py:132 | text with no capital letter has no such run |
| `Ssml.CapsWrapped` | src/ssml_processor.py:132 | surrounding text without capitals and with non-word edges creates no capital run |
| `Ssml.CapsAcross` | src/ssml_processor.py:132 | a word-bounded capital run cannot reach across capital-free text, so joining two texts without such runs by capital-free text creates none |
| `Ssml.CapsPrefix` | src/ssml_processor.py:132 | the capitals scan copies a prefix with no word-bounded capital run that ends in a non-word character, and goes on as at the start of the text |
| `Ssml.Rewrite` | src/ssml_processor.py:135-162 | a chain of literal replacements leaves text containing none of its markers unchanged |
| `Ssml.MarkerOnlyAt` | src/ssml_processor.py:135-162 | in `a + m + b`, with `m` a `(…)` marker and no `(` in `a` or `b`, the only `(…)` token that occurs is `m` |
| `Ssml.MarkerInContext` | src/ssml_processor.py:135-162 | a chain of distinct `(…)` markers whose replacements hold no `(` rewrites a marker between two `(`-free texts into its own replacement and keeps the texts |
| `Ssml.PauseMarkerInText` | src/ssml_processor.py:135-140 | each pause phrase standing anywhere in a sentence becomes its fixed `<break time>` element, and the text around it is kept; that text may hold capitals but no shorthand and no word-bounded capital run ("Dit is (pauze) goed") |
| `Ssml.ProsodyMarkerInText` | src/ssml_processor.py:143-162 | each volume, rate or pitch marker standing anywhere in a sentence becomes its fixed prosody tag, and the text around it is kept; that text may hold capitals but no shorthand and no word-bounded capital run |
| `Ssml.ClosingMarkers` | src/ssml_processor.py:143-162 | every closing marker `(/…)` becomes `</prosody>` |
| `Ssml.ProsodyPassIdle` | src/ssml_processor.py:143-162 | the prosody rewrites leave text without `(` unchanged |
| `Ssml.PausePassIdle` | src/ssml_processor.py:135-140 | the pause rules leave a prosody marker standing between two texts without `(` unchanged |
| `Ssml.PauseMarkersDistinct` | src/ssml_processor.py:135-140 | the six pause phrases are pairwise distinct |
| `Ssml.ProsodyMarkersDistinct` | src/ssml_processor.py:143-162 | the sixteen prosody markers are pairwise distinct |
| `Ssml.MarkerTablesDisjoint` | src/ssml_processor.py:135-162 | no pause phrase is also a prosody marker |
| `Ssml.PlainMarkerIdle` | src/ssml_processor.py:120-132 | the span and capitals passes leave a phrase marker unchanged |
| `Ssml.PlainTextUnchanged` | src/ssml_processor.py:115-164 | text free of `*`, `_`, `~`, `(` and of word-bounded capital runs comes back unchanged |
| `Ssml.WrappedPlainUnchanged` | src/ssml_processor.py:115-164 | markup produced by the rewrite around plain text is not rewritten again |
| `Text.ContainsIffOccurs` | src/ssml_processor.py:93 | Python's `p in s` holds exactly when `p` occurs at some index of `s` |
| `Text.Replace` | src/ssml_processor.py:107 | `str.replace` leaves text without the pattern unchanged and never lengthens text when the replacement is no longer than the pattern |
| `Text.ReplaceFirstOccurrence` | src/podcast_generator.py:54 | when no occurrence of the pattern starts inside the text before it, `replace` rewrites that occurrence and carries on after it; the text before it may hold the pattern's first character |
| `Text.RemoveAllOccurrences` | src/podcast_generator.py:54 | for any number of parts joined by a pattern that occurs only at the joins, removing the pattern gives the parts concatenated: every occurrence goes, not only the first |
| `Text.ReplaceSkipsClear` | src/podcast_generator.py:54 | text before which no occurrence of the pattern starts is copied unchanged by `replace` |
| `Text.HeadAbsentOnlyAtSeparators` | src/podcast_generator.py:54 | when no part holds the separator's first two characters (which differ), the separator occurs only at the joins |
| `Text.Strip` | src/podcast_generator.py:46 | `strip` returns the middle of the text, without leading or trailing whitespace, and is empty exactly when the text is all whitespace |
| `Text.StripUntrimmed` | src/ssml_processor.py:113 | text with no whitespace at either end is returned as is |
| `Text.Split` | src/podcast_generator.py:42 | `split('\n')` gives at least one part, none containing a newline |
| `Text.SplitJoin` | src/podcast_generator.py:42 | joining the parts with the separator gives back the script |
| `Text.JoinSplit` | src/podcast_generator.py:42 | splitting joined parts that contain no separator gives back the parts |
| `Text.Decimal` | src/podcast_generator.py:58 | `str(i)` is a non-empty string of digits |
| `Text.DecimalRoundTrip` | src/podcast_generator.py:58 | reading back `str(i)` gives `i` |
| `Text.DecimalInjective` | src/podcast_generator.py:58 | different line indices print differently |
| `Audio.Loaded` | src/audio_processor.py:38-48 | at most one segment per file; each comes from a truthy, existing input file and carries that file's volume offset |
| `Audio.Usable` | src/audio_processor.py:39 | defines the filter `file and os.path.exists(file)`, with existence the oracle `onDisk` |
| `Audio.VolumeFor` | src/audio_processor.py:43-46 | defines the volume choice: `temp_a_` first, then `temp_b_`, else no change; `TempNameVolume` and `ShapedVolume` state it for temp files |
| `Audio.LoadedAppend` | src/audio_processor.py:38-48 | the filter works file by file and keeps input order |
| `Audio.SkippedFile` | src/audio_processor.py:39 | an empty or missing file contributes nothing |
| `Audio.AllUsableLoaded` | src/audio_processor.py:38-48 | when every file exists, the segments are the files, one each, in order |
| `Audio.NothingLoaded` | src/audio_processor.py:38-52 | no segment is loaded exactly when no file is usable |
| `Audio.NoPausesIsEmpty` | src/audio_processor.py:50-56 | `None` as pause list acts as an empty list, and the result is `None` exactly when no file is usable |
| `Audio.MixdownShape` | src/audio_processor.py:58-68 | n segments give 2n-1 pieces: segment i at position 2i, gap i at 2i+1, no gap after the last |
| `Audio.MixdownSegments` | src/audio_processor.py:58-59 | the segments sit at the even positions, in order |
| `Audio.MixdownGaps` | src/audio_processor.py:61-68 | the gap after segment i is the pause gap when i is a pause index, else the normal gap |
| `Audio.Mixdown` | src/audio_processor.py:58-68 | defines the interleaving loop as a function; `MixdownShape`, `MixdownSegments` and `MixdownGaps` state its shape |
| `Audio.Gap` | src/audio_processor.py:61-68 | defines the gap after segment i: the pause gap when i is a pause index, else the normal gap |
| `Audio.SamePausesInRange` | src/audio_processor.py:62-68 | only pause indices in [0, n-2] matter; negative and too-large indices have no effect |
| `Audio.PausesCountLoadedSegments` | src/audio_processor.py:38-63 | pause indices count loaded segments, not input files: a missing file anywhere in the list drops out, so every later pause lands after a different script line |
| `Audio.AllPresentTrack` | src/audio_processor.py:34-75 | with every file present the output path is returned, and the track alternates each file at its host volume with the gap chosen for it |
| `Audio.CombineAudioSegments` | src/audio_processor.py:34-75 | the filter loop and the interleave loop compute `Combined`: `None` without segments, else the output path with the mixed track |
| `Audio.Combined` | src/audio_processor.py:34-75 | defines the whole operation; `NothingLoaded`, `NoPausesIsEmpty` and `AllPresentTrack` state its outcomes |
| `Generator.Personality` | src/podcast_generator.py:23-33 | each host record has exactly stability, similarity_boost and style |
| `Generator.PodcastGenerator.constructor` | src/podcast_generator.py:12-33 | voices and volumes as given, both volumes 0 dB by default; host A settings {0.7, 0.8, 0.3}, host B {0.4, 0.7, 0.6}; the SSML processor as markup |
| `Generator.PodcastGenerator.CreatePodcast` | src/podcast_generator.py:35-95 | the result is what the audio step returns for the files and pause indices of the line loop, written to `<name>.mp3` with the host volumes |
| `Generator.PodcastGenerator.TakeLine` | src/podcast_generator.py:46-83 | one turn of the line loop computes `Step` on the loop state |
| `Generator.PodcastGenerator.SpeakerLine` | src/podcast_generator.py:53-79 | a host line adds its temp file to both lists and counts it only when the text is non-empty and synthesis succeeds |
| `Generator.StepFiles` | src/podcast_generator.py:59-77 | a turn either keeps the files and counter, or appends the host's temp file for this line to both lists and adds one to the counter |
| `Generator.StepConsistent` | src/podcast_generator.py:45-83 | each turn keeps counter = number of audio files, temp files = audio files, pause indices in [-1, count-1] and non-decreasing |
| `Generator.Step` | src/podcast_generator.py:45-83 | defines one turn of the line loop; `BlankLineSkipped`, `SpeakerLineOutcome`, `PauseLineRecorded` and `OtherLineIgnored` state its four routes |
| `Generator.Run` | src/podcast_generator.py:37-83 | defines the loop as a fold of `Step`; `RunConsistent`, `RunNamesInLineOrder` and `PauseIndicesMeaning` state what it keeps |
| `Generator.Speak` | src/podcast_generator.py:53-79 | defines a host line's turn: synthesise the spoken text with the merged settings, record the temp file on success |
| `Generator.SpokenText` | src/podcast_generator.py:54-55 | defines the spoken text: every prefix removed, stripped, then `process_text`; `PrefixRemovedEverywhere` states it for lines with emotion tags |
| `Generator.TempName` | src/podcast_generator.py:58-72 | defines `temp_a_{i}.mp3` and `temp_b_{i}.mp3`; `TempNameParses` reads the index back |
| `Generator.StepPauses` | src/podcast_generator.py:81-83 | a turn adds a pause index exactly for a pause line, and the index is the count so far minus one |
| `Generator.PauseIndicesMeaning` | src/podcast_generator.py:39-83 | `v` is a pause index exactly when some non-host line holding `[PAUZE]` came after `v + 1` segments had been made |
| `Generator.ScriptTrack` | src/podcast_generator.py:37-90 | when every recorded file is on disk, the exported track alternates the recorded files, in line order and each at its host's volume, with gaps, and the gap after segment `k` is the long pause exactly when a pause line came after `k + 1` segments |
| `Generator.RunConsistent` | src/podcast_generator.py:37-83 | after any script these agreements hold |
| `Generator.TempNameParses` | src/podcast_generator.py:58-72 | a temp name is the host marker, the line index in decimal and `.mp3`, and the index can be read back |
| `Generator.RunNamesInLineOrder` | src/podcast_generator.py:45-77 | recorded files are named after strictly increasing line indices, all below the number of lines |
| `Generator.RunNamesDistinct` | src/podcast_generator.py:45-77 | no temp name is recorded twice |
| `Generator.TempNameVolume` | src/audio_processor.py:43-46 | a host A temp file gets host A's volume and a host B temp file host B's |
| `Generator.ShapedVolume` | src/audio_processor.py:43-46 | a file named like a temp file gets the volume of the host whose marker it starts with |
| `Generator.BlankLineSkipped` | src/podcast_generator.py:46-48 | a blank or whitespace-only line changes nothing |
| `Generator.PrefixesExclusive` | src/podcast_generator.py:53-67 | a line with the host B prefix does not have the host A prefix |
| `Generator.SpeakerLineOutcome` | src/podcast_generator.py:53-79 | a host line never records a pause, even with `[PAUZE]` in it; it adds its temp file when the processed text is non-empty and synthesis with the merged settings and the whole line's emotion succeeds, else changes nothing |
| `Generator.PauseLineRecorded` | src/podcast_generator.py:81-83 | a non-host line containing `[PAUZE]` appends the current count minus one |
| `Generator.OtherLineIgnored` | src/podcast_generator.py:53-83 | a non-blank line matching no route changes nothing |
| `Generator.PrefixRemovedEverywhere` | src/podcast_generator.py:53-55 | a host line made of any number of pieces without `[H` joined by the prefix, emotion tags included, loses every prefix, and its spoken text is `process_text` of the stripped pieces |
| `Generator.TaggedLinePrefixesRemoved` | src/podcast_generator.py:53-54 | in `[HOST A]: [blij] ja [HOST A]: nee` both prefixes go and the emotion tag stays |
| `Generator.MergeKeepsSimilarity` | src/podcast_generator.py:57 | merging emotion settings into a host record keeps all three keys and the host's similarity_boost, and overrides stability and style when an emotion is present |
| `Generator.SegmentSettings` | src/podcast_generator.py:51-71 | merged segment settings always have the host's similarity_boost and stability and style within [0, 1] |

## Left out

- Speech synthesis (`ElevenLabsClient.text_to_speech`, an HTTP request and a file write) is the oracle `tts`. Only its success or failure is modelled.
- Whether a file exists on disk is the oracle `onDisk`. The synthesis client reports success only when it has written a non-empty file (src/elevenlabs_client.py:48-50), but the model keeps `tts` and `onDisk` as two separate oracles and does not derive the one from the other. `ScriptTrack` therefore takes "every recorded file is on disk" as its precondition; what a file deleted between synthesis and mixing does to the track, wherever it stands in the list, is stated by `PausesCountLoadedSegments` instead.
- Audio decoding, the `segment + dB` gain arithmetic, `normalize` and the mp3 export are not modelled. A segment carries its gain offset and a gap carries its length. The exported track is the sequence before normalisation.
- Host volumes are integers (dB offsets). Fractional volumes are not modelled.
- The emotion-table numbers are `real` literals. No floating-point arithmetic is done on them.
- `CreatePodcast` returns the exported record (path and track) where the code returns only the path. The path is the record's `path` field.
- `cleanup_temp_files` deletes files and is not modelled. The temp file list is kept, and proved equal to the audio file list.
- Console output (`print`) is not modelled.
- The API key, client construction and FFmpeg path setup in the constructors are not modelled.
- `AudioProcessor.create_pause` is not used by the modelled code and is not modelled.
- src/podcast_postprocessor.py, src/config_loader.py, src/project_utils.py, main.py and src/__init__.py are not part of this model. They are external-tool I/O, configuration files and the command-line entry point.
- Python's `\w` beyond ASCII is a parameter of the model (`WordClass`), not Unicode's full table.
- Python's `str.isspace` is modelled by its fixed list of whitespace code points.
