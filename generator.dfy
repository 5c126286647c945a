/// `PodcastGenerator`: the two hosts' voice settings and the loop that turns
/// a script into a list of synthesised speech files, a list of pause
/// positions and, through the audio processor, one exported track. The
/// speech service is an oracle `Tts` that reports success or failure; file
/// existence is an oracle as well.
module Generator {
  import opened Options
  import opened Text
  import opened Ssml
  import opened Audio

  datatype Speaker = HostA | HostB

  const PrefixA := "[HOST A]:"
  const PrefixB := "[HOST B]:"
  const PauseMarker := "[PAUZE]"
  const SimilarityKey := "similarity_boost"
  const Extension := ".mp3"

  /** The speech service: given the text, the voice, the file to write and
      the voice settings, it reports whether synthesis succeeded. */
  type Tts = (string, string, string, Settings) -> bool

  /** The two operations of the markup processor that the generator calls. */
  datatype Markup = Markup(extractEmotion: string -> Settings, processText: string -> string)

  /** The markup processor of this model, for a given notion of word
      character. */
  function SsmlProcessor(w: WordClass): Markup {
    Markup(EmotionFor, text => Processed(text, w))
  }

  /** What the line loop accumulates. */
  datatype Plan = Plan(audioFiles: seq<string>, tempFiles: seq<string>,
                       pauseIndices: seq<int>, segmentCount: int)

  /** The voice and the settings a host speaks with. */
  datatype Host = Host(voice: string, settings: Settings)

  function Prefix(sp: Speaker): string {
    match sp
    case HostA => PrefixA
    case HostB => PrefixB
  }

  /** Each host's personality: host A steadier and less dramatic, host B
      more expressive. */
  function Personality(sp: Speaker): (s: Settings)
    ensures s.Keys == {StabilityKey, SimilarityKey, StyleKey}
  {
    match sp
    case HostA => map[StabilityKey := 0.7, SimilarityKey := 0.8, StyleKey := 0.3]
    case HostB => map[StabilityKey := 0.4, SimilarityKey := 0.7, StyleKey := 0.6]
  }

  /** The temporary file for a line of `sp` at line index `i`. */
  function TempName(sp: Speaker, i: nat): string {
    (match sp case HostA => HostAMarker case HostB => HostBMarker) + Decimal(i) + Extension
  }

  /** The spoken text of a speaker line: every occurrence of the prefix
      removed, stripped, then turned into markup. */
  function SpokenText(line: string, sp: Speaker, m: Markup): string {
    m.processText(Strip(Replace(line, Prefix(sp), [])))
  }

  /** A speaker line adds a segment when its text is non-empty and
      synthesis succeeds; the emotion is looked up in the whole line. */
  function Speak(p: Plan, sp: Speaker, i: nat, line: string, host: Host, tts: Tts, m: Markup): Plan {
    var text := SpokenText(line, sp, m);
    var file := TempName(sp, i);
    if text != [] && tts(text, host.voice, file, host.settings + m.extractEmotion(line)) then
      Plan(p.audioFiles + [file], p.tempFiles + [file], p.pauseIndices, p.segmentCount + 1)
    else p
  }

  /** One turn of the line loop, for line `raw` at index `i`. */
  function Step(p: Plan, i: nat, raw: string, hostA: Host, hostB: Host, tts: Tts, m: Markup): Plan {
    var line := Strip(raw);
    if line == [] then p
    else if StartsWith(line, PrefixA) then Speak(p, HostA, i, line, hostA, tts, m)
    else if StartsWith(line, PrefixB) then Speak(p, HostB, i, line, hostB, tts, m)
    else if Contains(line, PauseMarker) then p.(pauseIndices := p.pauseIndices + [p.segmentCount - 1])
    else p
  }

  /** The loop over `lines`, starting from nothing. */
  function Run(lines: seq<string>, hostA: Host, hostB: Host, tts: Tts, m: Markup): Plan
    decreases |lines|
  {
    if lines == [] then Plan([], [], [], 0)
    else Step(Run(lines[..|lines| - 1], hostA, hostB, tts, m), |lines| - 1, lines[|lines| - 1],
              hostA, hostB, tts, m)
  }

  class PodcastGenerator {
    var tts: Tts
    var markup: Markup
    var hostAVoice: string
    var hostBVoice: string
    var hostAVolume: int
    var hostBVolume: int
    var hostASettings: Settings
    var hostBSettings: Settings

    /** `tts` stands for the speech client and `w` for the word characters
        the markup processor's patterns use. Both volumes default to 0 dB. */
    constructor (tts: Tts, w: WordClass, hostAVoice: string, hostBVoice: string,
                 hostAVolume: int := 0, hostBVolume: int := 0)
      ensures this.tts == tts && markup == SsmlProcessor(w)
      ensures this.hostAVoice == hostAVoice && this.hostBVoice == hostBVoice
      ensures this.hostAVolume == hostAVolume && this.hostBVolume == hostBVolume
      ensures hostASettings == Personality(HostA) && hostBSettings == Personality(HostB)
    {
      this.tts := tts;
      markup := SsmlProcessor(w);
      this.hostAVoice := hostAVoice;
      this.hostBVoice := hostBVoice;
      this.hostAVolume := hostAVolume;
      this.hostBVolume := hostBVolume;
      hostASettings := map[StabilityKey := 0.7, SimilarityKey := 0.8, StyleKey := 0.3];
      hostBSettings := map[StabilityKey := 0.4, SimilarityKey := 0.7, StyleKey := 0.6];
    }

    function HostOf(sp: Speaker): Host
      reads this
    {
      match sp
      case HostA => Host(hostAVoice, hostASettings)
      case HostB => Host(hostBVoice, hostBSettings)
    }

    /** The plan the line loop builds for `script`. */
    function PlanFor(script: string): Plan
      reads this
    {
      Run(Split(script, '\n'), HostOf(HostA), HostOf(HostB), tts, markup)
    }

    /** Synthesises every speaker line of `script` and combines the results
        into `outputName.mp3`; `onDisk` tells which files exist. */
    method CreatePodcast(script: string, outputName: string, onDisk: string -> bool)
      returns (result: Option<Export>)
      ensures result == Combined(PlanFor(script).audioFiles, onDisk, outputName + Extension,
                                 Some(PlanFor(script).pauseIndices), DefaultNormalGap, DefaultPauseGap,
                                 hostAVolume, hostBVolume)
    {
      var audioFiles: seq<string> := [];
      var tempFiles: seq<string> := [];
      var pauseIndices: seq<int> := [];
      var lines := Split(script, '\n');
      var segmentCount := 0;
      for i := 0 to |lines|
        invariant Plan(audioFiles, tempFiles, pauseIndices, segmentCount)
               == Run(lines[..i], HostOf(HostA), HostOf(HostB), tts, markup)
      {
        RunStep(lines, i, HostOf(HostA), HostOf(HostB), tts, markup);
        audioFiles, tempFiles, pauseIndices, segmentCount :=
          TakeLine(audioFiles, tempFiles, pauseIndices, segmentCount, i, lines[i]);
      }
      assert lines[..|lines|] == lines;
      var outputFile := outputName + Extension;
      result := CombineAudioSegments(audioFiles, onDisk, outputFile, Some(pauseIndices),
                                     DefaultNormalGap, DefaultPauseGap, hostAVolume, hostBVolume);
    }

    /** The body of the line loop, for line `raw` at index `i`. */
    method TakeLine(audioFiles: seq<string>, tempFiles: seq<string>, pauseIndices: seq<int>,
                    segmentCount: int, i: nat, raw: string)
      returns (audioFiles': seq<string>, tempFiles': seq<string>, pauseIndices': seq<int>, segmentCount': int)
      ensures Plan(audioFiles', tempFiles', pauseIndices', segmentCount')
           == Step(Plan(audioFiles, tempFiles, pauseIndices, segmentCount), i, raw,
                   HostOf(HostA), HostOf(HostB), tts, markup)
    {
      audioFiles', tempFiles', pauseIndices', segmentCount' := audioFiles, tempFiles, pauseIndices, segmentCount;
      var line := Strip(raw);
      if line != [] {
        var emotionSettings := markup.extractEmotion(line);
        if StartsWith(line, PrefixA) {
          audioFiles', tempFiles', segmentCount' :=
            SpeakerLine(HostA, i, line, emotionSettings, audioFiles, tempFiles, pauseIndices, segmentCount);
        } else if StartsWith(line, PrefixB) {
          audioFiles', tempFiles', segmentCount' :=
            SpeakerLine(HostB, i, line, emotionSettings, audioFiles, tempFiles, pauseIndices, segmentCount);
        } else if Contains(line, PauseMarker) {
          pauseIndices' := pauseIndices + [segmentCount - 1];
        }
      }
    }

    /** A line of speaker `sp`: synthesise its text and, on success, record
        the file. */
    method SpeakerLine(sp: Speaker, i: nat, line: string, emotionSettings: Settings,
                       audioFiles: seq<string>, tempFiles: seq<string>, pauseIndices: seq<int>,
                       segmentCount: int)
      returns (audioFiles': seq<string>, tempFiles': seq<string>, segmentCount': int)
      requires emotionSettings == markup.extractEmotion(line)
      ensures Plan(audioFiles', tempFiles', pauseIndices, segmentCount')
           == Speak(Plan(audioFiles, tempFiles, pauseIndices, segmentCount), sp, i, line, HostOf(sp), tts, markup)
    {
      audioFiles', tempFiles', segmentCount' := audioFiles, tempFiles, segmentCount;
      var text := markup.processText(Strip(Replace(line, Prefix(sp), [])));
      if text != [] {
        var host := HostOf(sp);
        var settings := host.settings + emotionSettings;
        var file := TempName(sp, i);
        var ok := tts(text, host.voice, file, settings);
        if ok {
          audioFiles' := audioFiles + [file];
          tempFiles' := tempFiles + [file];
          segmentCount' := segmentCount + 1;
        }
      }
    }
  }

  /** One more line is one more turn of the loop. */
  lemma RunStep(lines: seq<string>, i: nat, hostA: Host, hostB: Host, tts: Tts, m: Markup)
    requires i < |lines|
    ensures Run(lines[..i + 1], hostA, hostB, tts, m)
         == Step(Run(lines[..i], hostA, hostB, tts, m), i, lines[i], hostA, hostB, tts, m)
  {
    assert lines[..i + 1][..i] == lines[..i];
  }

  // ----- what the loop keeps -----

  /** The counter matches the lists, which grow together, and every pause
      index is the counter's value minus one at the time it was recorded,
      so it lies in [-1, count - 1] and the list never decreases. */
  predicate Consistent(p: Plan) {
    p.segmentCount == |p.audioFiles| && p.tempFiles == p.audioFiles
    && (forall k :: 0 <= k < |p.pauseIndices| ==> -1 <= p.pauseIndices[k] <= p.segmentCount - 1)
    && (forall a, b :: 0 <= a < b < |p.pauseIndices| ==> p.pauseIndices[a] <= p.pauseIndices[b])
  }

  /** One turn either leaves the files alone or records the temp file of
      line `i` for one of the hosts. */
  lemma StepFiles(p: Plan, i: nat, raw: string, hostA: Host, hostB: Host, tts: Tts, m: Markup)
    ensures var q := Step(p, i, raw, hostA, hostB, tts, m);
      (q.audioFiles == p.audioFiles && q.tempFiles == p.tempFiles && q.segmentCount == p.segmentCount)
      || (q.audioFiles == p.audioFiles + [TempName(HostA, i)] && q.tempFiles == p.tempFiles + [TempName(HostA, i)]
          && q.segmentCount == p.segmentCount + 1 && q.pauseIndices == p.pauseIndices)
      || (q.audioFiles == p.audioFiles + [TempName(HostB, i)] && q.tempFiles == p.tempFiles + [TempName(HostB, i)]
          && q.segmentCount == p.segmentCount + 1 && q.pauseIndices == p.pauseIndices)
  {
  }

  lemma StepConsistent(p: Plan, i: nat, raw: string, hostA: Host, hostB: Host, tts: Tts, m: Markup)
    requires Consistent(p)
    ensures Consistent(Step(p, i, raw, hostA, hostB, tts, m))
  {
    StepFiles(p, i, raw, hostA, hostB, tts, m);
  }

  lemma {:induction false} RunConsistent(lines: seq<string>, hostA: Host, hostB: Host, tts: Tts, m: Markup)
    ensures Consistent(Run(lines, hostA, hostB, tts, m))
    decreases |lines|
  {
    if lines != [] {
      var init := lines[..|lines| - 1];
      RunConsistent(init, hostA, hostB, tts, m);
      StepConsistent(Run(init, hostA, hostB, tts, m), |lines| - 1, lines[|lines| - 1], hostA, hostB, tts, m);
    }
  }

  // ----- temp file names -----

  /** The shape of a temp file name: a host marker, decimal digits, `.mp3`. */
  predicate TempShaped(f: string) {
    |f| > |HostAMarker| + |Extension|
    && (f[..|HostAMarker|] == HostAMarker || f[..|HostAMarker|] == HostBMarker)
    && f[|f| - |Extension|..] == Extension
    && forall k :: |HostAMarker| <= k < |f| - |Extension| ==> '0' <= f[k] <= '9'
  }

  /** The line index a temp file name was made from. */
  function LineIndex(f: string): nat
    requires TempShaped(f)
  {
    ParseDecimal(f[|HostAMarker|..|f| - |Extension|])
  }

  /** A temp name records its speaker and its line index. */
  lemma TempNameParses(sp: Speaker, i: nat)
    ensures TempShaped(TempName(sp, i)) && LineIndex(TempName(sp, i)) == i
    ensures TempName(sp, i)[..|HostAMarker|] == (if sp == HostA then HostAMarker else HostBMarker)
  {
    var marker := if sp == HostA then HostAMarker else HostBMarker;
    var f := TempName(sp, i);
    assert f == marker + Decimal(i) + Extension;
    assert f[..|HostAMarker|] == marker;
    assert f[|HostAMarker|..|f| - |Extension|] == Decimal(i);
    assert f[|f| - |Extension|..] == Extension;
    DecimalRoundTrip(i);
  }

  /** Files named after lines before `n`, in increasing line order. */
  predicate NamedInLineOrder(files: seq<string>, n: nat) {
    (forall k :: 0 <= k < |files| ==> TempShaped(files[k]) && LineIndex(files[k]) < n)
    && (forall a, b :: 0 <= a < b < |files| ==> LineIndex(files[a]) < LineIndex(files[b]))
  }

  /** Segments keep script-line order: each recorded file is named after
      an earlier line than the next one. */
  lemma {:induction false} RunNamesInLineOrder(lines: seq<string>, hostA: Host, hostB: Host, tts: Tts, m: Markup)
    ensures NamedInLineOrder(Run(lines, hostA, hostB, tts, m).audioFiles, |lines|)
    decreases |lines|
  {
    if lines != [] {
      var n := |lines|;
      var init := lines[..n - 1];
      var p := Run(init, hostA, hostB, tts, m);
      RunNamesInLineOrder(init, hostA, hostB, tts, m);
      StepNamesInLineOrder(p, n - 1, lines[n - 1], hostA, hostB, tts, m);
    }
  }

  lemma StepNamesInLineOrder(p: Plan, i: nat, raw: string, hostA: Host, hostB: Host, tts: Tts, m: Markup)
    requires NamedInLineOrder(p.audioFiles, i)
    ensures NamedInLineOrder(Step(p, i, raw, hostA, hostB, tts, m).audioFiles, i + 1)
  {
    var files := Step(p, i, raw, hostA, hostB, tts, m).audioFiles;
    StepFiles(p, i, raw, hostA, hostB, tts, m);
    if files == p.audioFiles + [TempName(HostA, i)] {
      RecordInOrder(p.audioFiles, HostA, i);
    } else if files == p.audioFiles + [TempName(HostB, i)] {
      RecordInOrder(p.audioFiles, HostB, i);
    } else {
      LaterLinesToo(p.audioFiles, i);
    }
  }

  lemma LaterLinesToo(files: seq<string>, n: nat)
    requires NamedInLineOrder(files, n)
    ensures NamedInLineOrder(files, n + 1)
  {
  }

  /** Recording the temp file of line `n` keeps the order. */
  lemma RecordInOrder(files: seq<string>, sp: Speaker, n: nat)
    requires NamedInLineOrder(files, n)
    ensures NamedInLineOrder(files + [TempName(sp, n)], n + 1)
  {
    TempNameParses(sp, n);
    var g := files + [TempName(sp, n)];
    assert forall k :: 0 <= k < |files| ==> g[k] == files[k];
  }

  /** No two recorded files share a name. */
  lemma RunNamesDistinct(lines: seq<string>, hostA: Host, hostB: Host, tts: Tts, m: Markup)
    ensures var files := Run(lines, hostA, hostB, tts, m).audioFiles;
      forall a, b :: 0 <= a < b < |files| ==> files[a] != files[b]
  {
    RunNamesInLineOrder(lines, hostA, hostB, tts, m);
  }

  /** The audio processor gives a temp-shaped file the volume of the host
      whose marker it starts with. */
  lemma ShapedVolume(f: string, hostAVolume: int, hostBVolume: int)
    requires TempShaped(f)
    ensures VolumeFor(f, hostAVolume, hostBVolume)
         == (if f[..|HostAMarker|] == HostAMarker then hostAVolume else hostBVolume)
  {
    assert StartsWith(f, f[..|HostAMarker|]);
    if f[..|HostAMarker|] == HostAMarker {
      assert Contains(f, HostAMarker);
    } else {
      assert Contains(f, HostBMarker);
      forall k | 0 <= k < |f| ensures f[k] != 'a' {
        if k < |HostAMarker| {
          assert f[k] == HostBMarker[k];
        } else if k < |f| - |Extension| {
          assert '0' <= f[k] <= '9';
        } else {
          assert f[k] == Extension[k - (|f| - |Extension|)];
        }
      }
      AbsentCharNotContained(f, HostAMarker, 'a');
    }
  }

  /** The audio processor gives a temp file the volume of the host it was
      named for. */
  lemma TempNameVolume(sp: Speaker, i: nat, hostAVolume: int, hostBVolume: int)
    ensures VolumeFor(TempName(sp, i), hostAVolume, hostBVolume)
         == (if sp == HostA then hostAVolume else hostBVolume)
  {
    TempNameParses(sp, i);
    ShapedVolume(TempName(sp, i), hostAVolume, hostBVolume);
  }

  // ----- pauses -----

  /** A line that records a pause: after stripping it is non-blank, starts
      with neither prefix and holds the pause marker. */
  predicate IsPauseLine(raw: string) {
    var line := Strip(raw);
    line != [] && !StartsWith(line, PrefixA) && !StartsWith(line, PrefixB) && Contains(line, PauseMarker)
  }

  /** Some pause line of `lines` comes when exactly `v + 1` segments have
      been made. */
  predicate PauseAfter(lines: seq<string>, v: int, hostA: Host, hostB: Host, tts: Tts, m: Markup) {
    exists j :: 0 <= j < |lines| && PauseLineAt(lines, j, v, hostA, hostB, tts, m)
  }

  /** Line `j` is a pause line and `v + 1` segments were made before it. */
  predicate PauseLineAt(lines: seq<string>, j: int, v: int, hostA: Host, hostB: Host, tts: Tts, m: Markup) {
    0 <= j < |lines| && IsPauseLine(lines[j]) && Run(lines[..j], hostA, hostB, tts, m).segmentCount == v + 1
  }

  /** A turn adds a pause index exactly for a pause line, and that index
      is the count so far minus one. */
  lemma StepPauses(p: Plan, i: nat, raw: string, hostA: Host, hostB: Host, tts: Tts, m: Markup)
    ensures Step(p, i, raw, hostA, hostB, tts, m).pauseIndices
         == p.pauseIndices + (if IsPauseLine(raw) then [p.segmentCount - 1] else [])
  {
    var line := Strip(raw);
    if line != [] && StartsWith(line, PrefixB) {
      PrefixesExclusive(line);
    }
  }

  /** The last line of a script adds a pause index exactly when it is a
      pause line. */
  lemma RunPauses(lines: seq<string>, hostA: Host, hostB: Host, tts: Tts, m: Markup)
    requires lines != []
    ensures var p := Run(lines[..|lines| - 1], hostA, hostB, tts, m);
      Run(lines, hostA, hostB, tts, m).pauseIndices
      == p.pauseIndices + (if IsPauseLine(lines[|lines| - 1]) then [p.segmentCount - 1] else [])
  {
    RunLast(lines, hostA, hostB, tts, m);
    StepPauses(Run(lines[..|lines| - 1], hostA, hostB, tts, m), |lines| - 1, lines[|lines| - 1], hostA, hostB, tts, m);
  }

  /** A script is run by running all but its last line, then that line. */
  lemma RunLast(lines: seq<string>, hostA: Host, hostB: Host, tts: Tts, m: Markup)
    requires lines != []
    ensures Run(lines, hostA, hostB, tts, m)
         == Step(Run(lines[..|lines| - 1], hostA, hostB, tts, m), |lines| - 1, lines[|lines| - 1], hostA, hostB, tts, m)
  {
  }

  /** A pause line of a script is a pause line of all but its last line,
      or its last line. */
  lemma PauseAfterLast(lines: seq<string>, v: int, hostA: Host, hostB: Host, tts: Tts, m: Markup)
    requires lines != []
    ensures var init := lines[..|lines| - 1];
      PauseAfter(lines, v, hostA, hostB, tts, m)
      <==> PauseAfter(init, v, hostA, hostB, tts, m)
           || (IsPauseLine(lines[|lines| - 1]) && Run(init, hostA, hostB, tts, m).segmentCount == v + 1)
  {
    var init := lines[..|lines| - 1];
    if PauseAfter(init, v, hostA, hostB, tts, m) {
      PauseAfterExtends(lines, v, hostA, hostB, tts, m);
    }
    if PauseAfter(lines, v, hostA, hostB, tts, m) {
      PauseAfterSplits(lines, v, hostA, hostB, tts, m);
    }
    if IsPauseLine(lines[|lines| - 1]) && Run(init, hostA, hostB, tts, m).segmentCount == v + 1 {
      assert PauseLineAt(lines, |lines| - 1, v, hostA, hostB, tts, m);
    }
  }

  lemma PauseAfterExtends(lines: seq<string>, v: int, hostA: Host, hostB: Host, tts: Tts, m: Markup)
    requires lines != [] && PauseAfter(lines[..|lines| - 1], v, hostA, hostB, tts, m)
    ensures PauseAfter(lines, v, hostA, hostB, tts, m)
  {
    var init := lines[..|lines| - 1];
    var j :| PauseLineAt(init, j, v, hostA, hostB, tts, m);
    assert PauseLineAt(init, j, v, hostA, hostB, tts, m);
    assert lines[j] == init[j] && lines[..j] == init[..j];
    assert PauseLineAt(lines, j, v, hostA, hostB, tts, m);
  }

  lemma PauseAfterSplits(lines: seq<string>, v: int, hostA: Host, hostB: Host, tts: Tts, m: Markup)
    requires lines != [] && PauseAfter(lines, v, hostA, hostB, tts, m)
    ensures var init := lines[..|lines| - 1];
      PauseAfter(init, v, hostA, hostB, tts, m)
      || (IsPauseLine(lines[|lines| - 1]) && Run(init, hostA, hostB, tts, m).segmentCount == v + 1)
  {
    var j :| PauseLineAt(lines, j, v, hostA, hostB, tts, m);
    assert PauseLineAt(lines, j, v, hostA, hostB, tts, m);
    if j < |lines| - 1 {
      PauseLineBeforeLast(lines, j, v, hostA, hostB, tts, m);
    }
  }

  lemma PauseLineBeforeLast(lines: seq<string>, j: nat, v: int, hostA: Host, hostB: Host, tts: Tts, m: Markup)
    requires j < |lines| - 1 && IsPauseLine(lines[j])
    requires Run(lines[..j], hostA, hostB, tts, m).segmentCount == v + 1
    ensures PauseAfter(lines[..|lines| - 1], v, hostA, hostB, tts, m)
  {
    var init := lines[..|lines| - 1];
    assert init[j] == lines[j] && init[..j] == lines[..j];
    assert PauseLineAt(init, j, v, hostA, hostB, tts, m);
  }

  /** `v` is a pause index exactly when a pause line came after `v + 1`
      segments had been made. */
  lemma {:induction false} PauseIndicesMeaning(lines: seq<string>, v: int, hostA: Host, hostB: Host,
                                               tts: Tts, m: Markup)
    ensures v in Run(lines, hostA, hostB, tts, m).pauseIndices <==> PauseAfter(lines, v, hostA, hostB, tts, m)
    decreases |lines|
  {
    if lines != [] {
      PauseIndicesMeaning(lines[..|lines| - 1], v, hostA, hostB, tts, m);
      RunPauses(lines, hostA, hostB, tts, m);
      PauseAfterLast(lines, v, hostA, hostB, tts, m);
    }
  }

  /** The whole script, when at least one segment was made and every
      recorded file is on disk: the export alternates the recorded files,
      in line order and each at its host's volume, with gaps, and the gap
      after segment `k` is the long pause exactly when a pause line came
      right after it. */
  lemma ScriptTrack(lines: seq<string>, hostA: Host, hostB: Host, tts: Tts, m: Markup,
                    onDisk: string -> bool, outputFile: string, hostAVolume: int, hostBVolume: int)
    requires Run(lines, hostA, hostB, tts, m).audioFiles != []
    requires forall f :: f in Run(lines, hostA, hostB, tts, m).audioFiles ==> onDisk(f)
    ensures var p := Run(lines, hostA, hostB, tts, m);
      var files := p.audioFiles;
      var r := Combined(files, onDisk, outputFile, Some(p.pauseIndices), DefaultNormalGap, DefaultPauseGap,
                        hostAVolume, hostBVolume);
      r.Some? && r.value.path == outputFile && |r.value.track| == 2 * |files| - 1
      && NamedInLineOrder(files, |lines|)
      && (forall k :: 0 <= k < |files| ==>
            r.value.track[2 * k]
            == Speech(files[k], if files[k][..|HostAMarker|] == HostAMarker then hostAVolume else hostBVolume))
      && (forall k :: 0 <= k < |files| - 1 ==>
            r.value.track[2 * k + 1]
            == Silence(if PauseAfter(lines, k, hostA, hostB, tts, m) then DefaultPauseGap else DefaultNormalGap))
  {
    var p := Run(lines, hostA, hostB, tts, m);
    var files := p.audioFiles;
    RunNamesInLineOrder(lines, hostA, hostB, tts, m);
    forall k | 0 <= k < |files| ensures Usable(files[k], onDisk) {
      assert files[k] in files;
    }
    var r := Combined(files, onDisk, outputFile, Some(p.pauseIndices), DefaultNormalGap, DefaultPauseGap,
                      hostAVolume, hostBVolume);
    AllPresentTrack(files, onDisk, outputFile, Some(p.pauseIndices), DefaultNormalGap, DefaultPauseGap,
                    hostAVolume, hostBVolume);
    forall k | 0 <= k < |files|
      ensures r.value.track[2 * k]
           == Speech(files[k], if files[k][..|HostAMarker|] == HostAMarker then hostAVolume else hostBVolume)
    {
      ShapedVolume(files[k], hostAVolume, hostBVolume);
    }
    forall k | 0 <= k < |files| - 1
      ensures r.value.track[2 * k + 1]
           == Silence(if PauseAfter(lines, k, hostA, hostB, tts, m) then DefaultPauseGap else DefaultNormalGap)
    {
      assert r.value.track[2 * k + 1] == Gap(k, p.pauseIndices, DefaultNormalGap, DefaultPauseGap);
      PauseIndicesMeaning(lines, k, hostA, hostB, tts, m);
    }
  }

  // ----- routing -----

  /** A blank or whitespace-only line changes nothing. */
  lemma BlankLineSkipped(p: Plan, i: nat, raw: string, hostA: Host, hostB: Host, tts: Tts, m: Markup)
    requires Strip(raw) == []
    ensures Step(p, i, raw, hostA, hostB, tts, m) == p
  {
  }

  /** The speaker prefixes exclude each other. */
  lemma PrefixesExclusive(line: string)
    requires StartsWith(line, PrefixB)
    ensures !StartsWith(line, PrefixA)
  {
    assert line[..|PrefixA|][6] == PrefixB[6];
  }

  /** A speaker line never records a pause, even when it holds the pause
      marker; it adds the temp file of its line exactly when its text is
      non-empty and synthesis, with the host's settings overridden by the
      emotion of the whole line, succeeds, and otherwise changes nothing. */
  lemma SpeakerLineOutcome(p: Plan, i: nat, raw: string, sp: Speaker, hostA: Host, hostB: Host,
                           tts: Tts, m: Markup)
    requires StartsWith(Strip(raw), Prefix(sp))
    ensures var line := Strip(raw);
      var host := if sp == HostA then hostA else hostB;
      var text := SpokenText(line, sp, m);
      var file := TempName(sp, i);
      var q := Step(p, i, raw, hostA, hostB, tts, m);
      q.pauseIndices == p.pauseIndices
      && if text != [] && tts(text, host.voice, file, host.settings + m.extractEmotion(line))
         then q.audioFiles == p.audioFiles + [file] && q.tempFiles == p.tempFiles + [file]
              && q.segmentCount == p.segmentCount + 1
         else q == p
  {
    if sp == HostB {
      PrefixesExclusive(Strip(raw));
    }
  }

  /** A line with neither prefix but with the pause marker records the
      current count minus one, and nothing else. */
  lemma PauseLineRecorded(p: Plan, i: nat, raw: string, hostA: Host, hostB: Host, tts: Tts, m: Markup)
    requires !StartsWith(Strip(raw), PrefixA) && !StartsWith(Strip(raw), PrefixB)
    requires Contains(Strip(raw), PauseMarker)
    ensures Step(p, i, raw, hostA, hostB, tts, m) == p.(pauseIndices := p.pauseIndices + [p.segmentCount - 1])
  {
    assert Strip(raw) != [] by {
      ContainsIffOccurs(Strip(raw), PauseMarker);
    }
  }

  /** Any other line is ignored. */
  lemma OtherLineIgnored(p: Plan, i: nat, raw: string, hostA: Host, hostB: Host, tts: Tts, m: Markup)
    requires !StartsWith(Strip(raw), PrefixA) && !StartsWith(Strip(raw), PrefixB)
    requires !Contains(Strip(raw), PauseMarker)
    ensures Step(p, i, raw, hostA, hostB, tts, m) == p
  {
  }

  /** Removing the prefix deletes every occurrence of it, not only the
      leading one: a line made of pieces joined by the prefix, no piece
      holding "[H", loses every prefix, and the spoken text is made from
      the pieces run together. Emotion tags and other bracketed words in
      the pieces stay. */
  lemma PrefixRemovedEverywhere(sp: Speaker, parts: seq<string>, m: Markup)
    requires |parts| >= 1
    requires forall k :: 0 <= k < |parts| ==> !Contains(parts[k], "[H")
    ensures Replace(JoinWith(parts, Prefix(sp)), Prefix(sp), []) == Concat(parts)
    ensures SpokenText(JoinWith(parts, Prefix(sp)), sp, m) == m.processText(Strip(Concat(parts)))
  {
    var sep := Prefix(sp);
    assert Replace(JoinWith(parts, sep), sep, []) == Concat(parts) by {
      PrefixHead(sp);
      HeadAbsentOnlyAtSeparators(parts, sep);
      RemoveAllOccurrences(parts, sep);
    }
  }

  /** Both prefixes open with "[H". */
  lemma PrefixHead(sp: Speaker)
    ensures |Prefix(sp)| >= 2 && Prefix(sp)[0] != Prefix(sp)[1] && Prefix(sp)[..2] == "[H"
  {
    if sp == HostA {
      assert PrefixA[..2] == [PrefixA[0], PrefixA[1]];
    } else {
      assert PrefixB[..2] == [PrefixB[0], PrefixB[1]];
    }
  }

  /** A host line that repeats its prefix after an emotion tag: both
      prefixes go and the tag stays. */
  lemma TaggedLinePrefixesRemoved()
    ensures Replace("[HOST A]: [blij] ja [HOST A]: nee", PrefixA, []) == " [blij] ja  nee"
  {
    var parts := TaggedLineParts();
    forall k | 0 <= k < |parts| ensures !Contains(parts[k], "[H") {
      assert 'H' !in parts[k];
      AbsentCharNotContained(parts[k], "[H", 'H');
    }
    TaggedLineJoined();
    TaggedLineConcat();
    PrefixRemovedEverywhere(HostA, parts, Markup(s => map[], s => s));
  }

  /** The pieces of the line between its prefixes. */
  function TaggedLineParts(): seq<string> {
    ["", " [blij] ja ", " nee"]
  }

  lemma TaggedLineJoined()
    ensures JoinWith(TaggedLineParts(), PrefixA) == "[HOST A]: [blij] ja [HOST A]: nee"
  {
    var parts := TaggedLineParts();
    assert parts[1..] == [" [blij] ja ", " nee"];
    assert parts[1..][1..] == [" nee"];
  }

  lemma TaggedLineConcat()
    ensures Concat(TaggedLineParts()) == " [blij] ja  nee"
  {
    var parts := TaggedLineParts();
    assert parts[1..] == [" [blij] ja ", " nee"];
    assert parts[1..][1..] == [" nee"];
    assert parts[1..][1..][1..] == [];
  }

  // ----- settings -----

  /** The host record overridden by an emotion: the keys stay the three
      voice keys, `similarity_boost` always comes from the host, and the
      other two come from the emotion when there is one. */
  lemma MergeKeepsSimilarity(sp: Speaker, e: Settings)
    requires e == map[] || e.Keys == {StabilityKey, StyleKey}
    ensures var s := Personality(sp) + e;
      s.Keys == {StabilityKey, SimilarityKey, StyleKey}
      && s[SimilarityKey] == Personality(sp)[SimilarityKey]
      && (e == map[] ==> s == Personality(sp))
      && (e != map[] ==> s[StabilityKey] == e[StabilityKey] && s[StyleKey] == e[StyleKey])
  {
  }

  /** With the emotion lookup of this model, every segment's settings hold
      the three voice keys with stability and style in [0, 1]. */
  lemma SegmentSettings(sp: Speaker, line: string)
    ensures var s := Personality(sp) + EmotionFor(line);
      s.Keys == {StabilityKey, SimilarityKey, StyleKey}
      && s[SimilarityKey] == Personality(sp)[SimilarityKey]
      && 0.0 <= s[StabilityKey] <= 1.0 && 0.0 <= s[StyleKey] <= 1.0
  {
    EmotionSettingsShape(line);
    MergeKeepsSimilarity(sp, EmotionFor(line));
  }
}
