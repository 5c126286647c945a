/// `AudioProcessor.combine_audio_segments`: which speech files are loaded,
/// the gain offset each one gets, and the silences placed between them.
/// Audio is kept abstract: a loaded file is named by its path, a silence by
/// its length in milliseconds. Decoding, gain arithmetic, peak normalisation
/// and MP3 encoding belong to the audio library and are not modelled.
module Audio {
  import opened Options
  import opened Text

  /** A piece of the final track: a loaded speech file raised by `gainDb`
      decibels, or a silence of `ms` milliseconds. */
  datatype Piece = Speech(file: string, gainDb: int) | Silence(ms: int)

  /** What is written: the track, normalised and encoded as MP3 at `path`. */
  datatype Export = Export(path: string, track: seq<Piece>)

  const DefaultNormalGap := 150
  const DefaultPauseGap := 800
  const HostAMarker := "temp_a_"
  const HostBMarker := "temp_b_"

  /** A path contributes a segment when it is non-empty and the file exists. */
  predicate Usable(file: string, onDisk: string -> bool) {
    file != [] && onDisk(file)
  }

  /** The gain offset chosen from the file name: the host A marker wins over
      the host B marker, and any other file keeps its level. */
  function VolumeFor(file: string, hostAVolume: int, hostBVolume: int): int {
    if Contains(file, HostAMarker) then hostAVolume
    else if Contains(file, HostBMarker) then hostBVolume
    else 0
  }

  /** The segments loaded from `files`, in input order. */
  function Loaded(files: seq<string>, onDisk: string -> bool, hostAVolume: int, hostBVolume: int)
    : (segs: seq<Piece>)
    ensures |segs| <= |files|
    ensures forall k :: 0 <= k < |segs| ==>
      segs[k].Speech? && segs[k].file in files && Usable(segs[k].file, onDisk)
      && segs[k].gainDb == VolumeFor(segs[k].file, hostAVolume, hostBVolume)
    decreases |files|
  {
    if files == [] then []
    else
      var last := files[|files| - 1];
      Loaded(files[..|files| - 1], onDisk, hostAVolume, hostBVolume)
      + (if Usable(last, onDisk) then [Speech(last, VolumeFor(last, hostAVolume, hostBVolume))] else [])
  }

  /** `pause_indices or []`. */
  function PauseList(pauseIndices: Option<seq<int>>): seq<int> {
    match pauseIndices
    case None => []
    case Some(p) => p
  }

  /** The silence that follows segment `i`. */
  function Gap(i: int, pauses: seq<int>, normalGap: int, pauseGap: int): Piece {
    Silence(if i in pauses then pauseGap else normalGap)
  }

  /** The segments with one gap between each neighbouring pair. */
  function Mixdown(segs: seq<Piece>, pauses: seq<int>, normalGap: int, pauseGap: int): seq<Piece>
    requires segs != []
    decreases |segs|
  {
    if |segs| == 1 then segs
    else
      Mixdown(segs[..|segs| - 1], pauses, normalGap, pauseGap)
      + [Gap(|segs| - 2, pauses, normalGap, pauseGap), segs[|segs| - 1]]
  }

  /** The whole operation: nothing when no file is usable, otherwise the
      mixdown exported to `outputFile`. */
  function Combined(files: seq<string>, onDisk: string -> bool, outputFile: string,
                    pauseIndices: Option<seq<int>>, normalGap: int, pauseGap: int,
                    hostAVolume: int, hostBVolume: int): Option<Export>
  {
    var segs := Loaded(files, onDisk, hostAVolume, hostBVolume);
    if segs == [] then None
    else Some(Export(outputFile, Mixdown(segs, PauseList(pauseIndices), normalGap, pauseGap)))
  }

  /** The track after the first `i` turns of the mixing loop. */
  function MixedSoFar(segs: seq<Piece>, i: nat, pauses: seq<int>, normalGap: int, pauseGap: int)
    : seq<Piece>
    requires segs != [] && i <= |segs|
  {
    if i == 0 then []
    else
      Mixdown(segs[..i], pauses, normalGap, pauseGap)
      + (if i < |segs| then [Gap(i - 1, pauses, normalGap, pauseGap)] else [])
  }

  method CombineAudioSegments(audioFiles: seq<string>, onDisk: string -> bool, outputFile: string,
                              pauseIndices: Option<seq<int>>, normalGap: int, pauseGap: int,
                              hostAVolume: int, hostBVolume: int)
    returns (r: Option<Export>)
    ensures r == Combined(audioFiles, onDisk, outputFile, pauseIndices, normalGap, pauseGap,
                          hostAVolume, hostBVolume)
  {
    var segments: seq<Piece> := [];
    for k := 0 to |audioFiles|
      invariant segments == Loaded(audioFiles[..k], onDisk, hostAVolume, hostBVolume)
    {
      var file := audioFiles[k];
      if file != [] && onDisk(file) {
        var gain := 0;
        if Contains(file, HostAMarker) {
          gain := hostAVolume;
        } else if Contains(file, HostBMarker) {
          gain := hostBVolume;
        }
        segments := segments + [Speech(file, gain)];
      }
      LoadedStep(audioFiles, k, onDisk, hostAVolume, hostBVolume);
    }
    assert audioFiles[..|audioFiles|] == audioFiles;
    if segments == [] {
      return None;
    }
    var pauses := PauseList(pauseIndices);
    var finalAudio: seq<Piece> := [];
    for i := 0 to |segments|
      invariant finalAudio == MixedSoFar(segments, i, pauses, normalGap, pauseGap)
    {
      finalAudio := finalAudio + [segments[i]];
      if i < |segments| - 1 {
        if i in pauses {
          finalAudio := finalAudio + [Silence(pauseGap)];
        } else {
          finalAudio := finalAudio + [Silence(normalGap)];
        }
      }
      MixedStep(segments, i, pauses, normalGap, pauseGap);
    }
    assert segments[..|segments|] == segments;
    assert finalAudio == Mixdown(segments, pauses, normalGap, pauseGap);
    return Some(Export(outputFile, finalAudio));
  }

  /** One turn of the loading loop. */
  lemma LoadedStep(files: seq<string>, k: nat, onDisk: string -> bool, hostAVolume: int, hostBVolume: int)
    requires k < |files|
    ensures Loaded(files[..k + 1], onDisk, hostAVolume, hostBVolume)
         == Loaded(files[..k], onDisk, hostAVolume, hostBVolume)
            + (if Usable(files[k], onDisk) then [Speech(files[k], VolumeFor(files[k], hostAVolume, hostBVolume))] else [])
  {
    assert files[..k + 1][..k] == files[..k];
  }

  /** One turn of the mixing loop. */
  lemma MixedStep(segs: seq<Piece>, i: nat, pauses: seq<int>, normalGap: int, pauseGap: int)
    requires i < |segs|
    ensures MixedSoFar(segs, i + 1, pauses, normalGap, pauseGap)
         == MixedSoFar(segs, i, pauses, normalGap, pauseGap) + [segs[i]]
            + (if i < |segs| - 1 then [Gap(i, pauses, normalGap, pauseGap)] else [])
  {
    assert segs[..i + 1][..i] == segs[..i];
  }

  // ----- loading -----

  /** Loading distributes over concatenation, so input order is kept. */
  lemma {:induction false} LoadedAppend(f1: seq<string>, f2: seq<string>, onDisk: string -> bool,
                                        hostAVolume: int, hostBVolume: int)
    ensures Loaded(f1 + f2, onDisk, hostAVolume, hostBVolume)
         == Loaded(f1, onDisk, hostAVolume, hostBVolume) + Loaded(f2, onDisk, hostAVolume, hostBVolume)
    decreases |f2|
  {
    if f2 == [] {
      assert f1 + f2 == f1;
    } else {
      var init := f2[..|f2| - 1];
      LoadedAppend(f1, init, onDisk, hostAVolume, hostBVolume);
      assert (f1 + f2)[..|f1 + f2| - 1] == f1 + init;
    }
  }

  /** A missing or empty path is skipped without a trace. */
  lemma SkippedFile(file: string, files: seq<string>, onDisk: string -> bool,
                    hostAVolume: int, hostBVolume: int)
    requires !Usable(file, onDisk)
    ensures Loaded([file] + files, onDisk, hostAVolume, hostBVolume)
         == Loaded(files, onDisk, hostAVolume, hostBVolume)
  {
    LoadedAppend([file], files, onDisk, hostAVolume, hostBVolume);
    assert [file][..0] == [];
  }

  /** When every path is usable, there is one segment per file, in order. */
  lemma {:induction false} AllUsableLoaded(files: seq<string>, onDisk: string -> bool,
                                           hostAVolume: int, hostBVolume: int)
    requires forall k :: 0 <= k < |files| ==> Usable(files[k], onDisk)
    ensures var segs := Loaded(files, onDisk, hostAVolume, hostBVolume);
      |segs| == |files| && forall k :: 0 <= k < |files| ==> segs[k].file == files[k]
    decreases |files|
  {
    if files != [] {
      AllUsableLoaded(files[..|files| - 1], onDisk, hostAVolume, hostBVolume);
    }
  }

  // ----- gaps -----

  /** The mixdown alternates segments and gaps: segment `i` at position
      `2i`, the gap after it at `2i + 1`, and nothing after the last
      segment. */
  lemma MixdownShape(segs: seq<Piece>, pauses: seq<int>, normalGap: int, pauseGap: int)
    requires segs != []
    ensures var m := Mixdown(segs, pauses, normalGap, pauseGap);
      |m| == 2 * |segs| - 1
      && (forall i :: 0 <= i < |segs| ==> m[2 * i] == segs[i])
      && (forall i :: 0 <= i < |segs| - 1 ==> m[2 * i + 1] == Gap(i, pauses, normalGap, pauseGap))
  {
    MixdownSegments(segs, pauses, normalGap, pauseGap);
    MixdownGaps(segs, pauses, normalGap, pauseGap);
  }

  /** Segment `i` sits at position `2i`, and the track ends with the last one. */
  lemma {:induction false} MixdownSegments(segs: seq<Piece>, pauses: seq<int>, normalGap: int, pauseGap: int)
    requires segs != []
    ensures var m := Mixdown(segs, pauses, normalGap, pauseGap);
      |m| == 2 * |segs| - 1 && forall i :: 0 <= i < |segs| ==> m[2 * i] == segs[i]
    decreases |segs|
  {
    if |segs| > 1 {
      var init := segs[..|segs| - 1];
      MixdownSegments(init, pauses, normalGap, pauseGap);
      var m := Mixdown(segs, pauses, normalGap, pauseGap);
      var mi := Mixdown(init, pauses, normalGap, pauseGap);
      assert m == mi + [Gap(|segs| - 2, pauses, normalGap, pauseGap), segs[|segs| - 1]];
      forall i | 0 <= i < |segs| ensures m[2 * i] == segs[i] {
        if i < |segs| - 1 {
          assert m[2 * i] == mi[2 * i] == init[i];
        }
      }
    }
  }

  /** The gap after segment `i` sits at position `2i + 1`. */
  lemma {:induction false} MixdownGaps(segs: seq<Piece>, pauses: seq<int>, normalGap: int, pauseGap: int)
    requires segs != []
    ensures var m := Mixdown(segs, pauses, normalGap, pauseGap);
      |m| == 2 * |segs| - 1
      && forall i :: 0 <= i < |segs| - 1 ==> m[2 * i + 1] == Gap(i, pauses, normalGap, pauseGap)
    decreases |segs|
  {
    if |segs| > 1 {
      var init := segs[..|segs| - 1];
      MixdownGaps(init, pauses, normalGap, pauseGap);
      var m := Mixdown(segs, pauses, normalGap, pauseGap);
      var mi := Mixdown(init, pauses, normalGap, pauseGap);
      assert m == mi + [Gap(|segs| - 2, pauses, normalGap, pauseGap), segs[|segs| - 1]];
      forall i | 0 <= i < |segs| - 1 ensures m[2 * i + 1] == Gap(i, pauses, normalGap, pauseGap) {
        if i < |segs| - 2 {
          assert m[2 * i + 1] == mi[2 * i + 1];
        }
      }
    }
  }

  /** Only membership of `0 .. n-2` in the pause list matters: negative
      indices, indices from `n-1` on, repeats and order have no effect. */
  lemma SamePausesInRange(segs: seq<Piece>, p1: seq<int>, p2: seq<int>, normalGap: int, pauseGap: int)
    requires segs != []
    requires forall i :: 0 <= i < |segs| - 1 ==> (i in p1 <==> i in p2)
    ensures Mixdown(segs, p1, normalGap, pauseGap) == Mixdown(segs, p2, normalGap, pauseGap)
  {
    MixdownShape(segs, p1, normalGap, pauseGap);
    MixdownShape(segs, p2, normalGap, pauseGap);
    var m1 := Mixdown(segs, p1, normalGap, pauseGap);
    var m2 := Mixdown(segs, p2, normalGap, pauseGap);
    forall j | 0 <= j < |m1| ensures m1[j] == m2[j] {
      if j % 2 == 0 {
        assert m1[2 * (j / 2)] == m2[2 * (j / 2)];
      } else {
        assert m1[2 * (j / 2) + 1] == m2[2 * (j / 2) + 1];
      }
    }
  }

  /** No pause list and an empty one give the same result. */
  lemma NoPausesIsEmpty(files: seq<string>, onDisk: string -> bool, outputFile: string,
                        normalGap: int, pauseGap: int, hostAVolume: int, hostBVolume: int)
    ensures Combined(files, onDisk, outputFile, None, normalGap, pauseGap, hostAVolume, hostBVolume)
         == Combined(files, onDisk, outputFile, Some([]), normalGap, pauseGap, hostAVolume, hostBVolume)
    ensures Combined(files, onDisk, outputFile, None, normalGap, pauseGap, hostAVolume, hostBVolume)
         == None
         <==> forall k :: 0 <= k < |files| ==> !Usable(files[k], onDisk)
  {
    NothingLoaded(files, onDisk, hostAVolume, hostBVolume);
  }

  /** No segment is loaded exactly when no path is usable. */
  lemma {:induction false} NothingLoaded(files: seq<string>, onDisk: string -> bool,
                                         hostAVolume: int, hostBVolume: int)
    ensures Loaded(files, onDisk, hostAVolume, hostBVolume) == []
        <==> forall k :: 0 <= k < |files| ==> !Usable(files[k], onDisk)
    decreases |files|
  {
    if files != [] {
      var init := files[..|files| - 1];
      NothingLoaded(init, onDisk, hostAVolume, hostBVolume);
      assert forall k :: 0 <= k < |init| ==> init[k] == files[k];
    }
  }

  /** Pause indices count loaded segments, not input files: a missing file
      anywhere in the list drops out, so every later pause lands after a
      different script line than the one it was recorded for. */
  lemma PausesCountLoadedSegments(front: seq<string>, file: string, back: seq<string>,
                                  onDisk: string -> bool, outputFile: string,
                                  pauseIndices: Option<seq<int>>, normalGap: int, pauseGap: int,
                                  hostAVolume: int, hostBVolume: int)
    requires !Usable(file, onDisk)
    ensures Combined(front + [file] + back, onDisk, outputFile, pauseIndices, normalGap, pauseGap, hostAVolume, hostBVolume)
         == Combined(front + back, onDisk, outputFile, pauseIndices, normalGap, pauseGap, hostAVolume, hostBVolume)
  {
    assert front + [file] + back == front + ([file] + back);
    LoadedAppend(front, [file] + back, onDisk, hostAVolume, hostBVolume);
    LoadedAppend(front, back, onDisk, hostAVolume, hostBVolume);
    SkippedFile(file, back, onDisk, hostAVolume, hostBVolume);
  }

  /** With every file present, the export holds each file's segment at an
      even position, with its volume, and the gap after it at the next odd
      position. */
  lemma AllPresentTrack(files: seq<string>, onDisk: string -> bool, outputFile: string,
                        pauseIndices: Option<seq<int>>, normalGap: int, pauseGap: int,
                        hostAVolume: int, hostBVolume: int)
    requires files != [] && forall k :: 0 <= k < |files| ==> Usable(files[k], onDisk)
    ensures var r := Combined(files, onDisk, outputFile, pauseIndices, normalGap, pauseGap, hostAVolume, hostBVolume);
      r.Some? && r.value.path == outputFile && |r.value.track| == 2 * |files| - 1
      && (forall k :: 0 <= k < |files| ==>
            r.value.track[2 * k] == Speech(files[k], VolumeFor(files[k], hostAVolume, hostBVolume)))
      && (forall k :: 0 <= k < |files| - 1 ==>
            r.value.track[2 * k + 1] == Gap(k, PauseList(pauseIndices), normalGap, pauseGap))
  {
    var segs := Loaded(files, onDisk, hostAVolume, hostBVolume);
    AllUsableLoaded(files, onDisk, hostAVolume, hostBVolume);
    MixdownShape(segs, PauseList(pauseIndices), normalGap, pauseGap);
  }
}
