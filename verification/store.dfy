/**
 * The application store (app/store/index.ts): the whole UI state as one
 * value, and every store action as a pure function from the state before
 * to the state after.
 */
module Store {
  import opened Wrappers
  import opened Types

  datatype FileState = FileState(
    primaryAudio: Option<FileRef>,
    backgroundMusic: Option<FileRef>,
    images: seq<ImageFile>)

  datatype ProcessingStatus = ProcessingStatus(
    state: ProcessingState,
    progress: Option<ProgressInfo>,
    error: Option<AppError>)

  datatype AppState = AppState(
    files: FileState,
    settings: VideoSettings,
    processing: ProcessingStatus,
    generatedVideoUrl: Option<string>)

  const InitialState: AppState := AppState(
    FileState(None, None, []),
    VideoSettings(Fade, 25, None),
    ProcessingStatus(Idle, None, None),
    None)

  /* Frame conditions: which top-level parts an action leaves alone. */

  predicate OnlyFilesChange(s: AppState, r: AppState) {
    r.settings == s.settings && r.processing == s.processing && r.generatedVideoUrl == s.generatedVideoUrl
  }

  predicate OnlySettingsChange(s: AppState, r: AppState) {
    r.files == s.files && r.processing == s.processing && r.generatedVideoUrl == s.generatedVideoUrl
  }

  predicate OnlyProcessingChanges(s: AppState, r: AppState) {
    r.files == s.files && r.settings == s.settings && r.generatedVideoUrl == s.generatedVideoUrl
  }

  function SetPrimaryAudio(s: AppState, file: Option<FileRef>): (r: AppState)
    ensures OnlyFilesChange(s, r)
    ensures r.files.primaryAudio == file
    ensures r.files.backgroundMusic == s.files.backgroundMusic && r.files.images == s.files.images
  {
    s.(files := s.files.(primaryAudio := file))
  }

  function SetBackgroundMusic(s: AppState, file: Option<FileRef>): (r: AppState)
    ensures OnlyFilesChange(s, r)
    ensures r.files.backgroundMusic == file
    ensures r.files.primaryAudio == s.files.primaryAudio && r.files.images == s.files.images
  {
    s.(files := s.files.(backgroundMusic := file))
  }

  /** `addImages`: the new images follow the existing ones, which are untouched. */
  function AddImages(s: AppState, images: seq<ImageFile>): (r: AppState)
    ensures OnlyFilesChange(s, r)
    ensures r.files.primaryAudio == s.files.primaryAudio && r.files.backgroundMusic == s.files.backgroundMusic
    ensures |r.files.images| == |s.files.images| + |images|
    ensures r.files.images[..|s.files.images|] == s.files.images
    ensures forall i :: 0 <= i < |images| ==> r.files.images[|s.files.images| + i] == images[i]
  {
    s.(files := s.files.(images := s.files.images + images))
  }

  /** `images.filter((_, i) => i !== index)`, walking the list as `filter` does. */
  function DropAt(xs: seq<ImageFile>, index: int): (r: seq<ImageFile>)
    ensures 0 <= index < |xs| ==> r == xs[..index] + xs[index + 1..]
    ensures !(0 <= index < |xs|) ==> r == xs
  {
    if |xs| == 0 then []
    else
      var rest := DropAt(xs[1..], index - 1);
      assert 0 < index < |xs| ==> rest == xs[1..index] + xs[index + 1..] by {
        if 0 < index < |xs| {
          assert xs[1..][..index - 1] == xs[1..index];
          assert xs[1..][index..] == xs[index + 1..];
        }
      }
      assert 0 < index < |xs| ==> xs[..index] == [xs[0]] + xs[1..index];
      (if index == 0 then [] else [xs[0]]) + rest
  }

  /** `removeImage`: drops the image at `index` if there is one; the other images keep their `order`. */
  function RemoveImage(s: AppState, index: int): (r: AppState)
    ensures OnlyFilesChange(s, r)
    ensures r.files.primaryAudio == s.files.primaryAudio && r.files.backgroundMusic == s.files.backgroundMusic
    ensures 0 <= index < |s.files.images| ==>
      && |r.files.images| == |s.files.images| - 1
      && (forall i :: 0 <= i < index ==> r.files.images[i] == s.files.images[i])
      && (forall i :: index <= i < |r.files.images| ==> r.files.images[i] == s.files.images[i + 1])
      && multiset(r.files.images) + multiset{s.files.images[index]} == multiset(s.files.images)
    ensures !(0 <= index < |s.files.images|) ==> r == s
  {
    var xs := s.files.images;
    assert 0 <= index < |xs| ==> xs == xs[..index] + [xs[index]] + xs[index + 1..];
    s.(files := s.files.(images := DropAt(xs, index)))
  }

  /** Removing the image just appended restores the state. */
  lemma RemoveUndoesAdd(s: AppState, img: ImageFile)
    ensures RemoveImage(AddImages(s, [img]), |s.files.images|) == s
  {
    var t := AddImages(s, [img]);
    assert t.files.images[..|s.files.images|] + t.files.images[|s.files.images| + 1..] == s.files.images;
  }

  /** Where `Array.prototype.splice` starts for index `k` on a list of length `len`. */
  function SpliceIndex(k: int, len: nat): (p: nat)
    ensures p <= len
    ensures 0 <= k <= len ==> p == k
  {
    if k < 0 then (if len + k < 0 then 0 else len + k) else if k > len then len else k
  }

  /** Which old position ends up at position `i` after moving `from` to `to`. */
  function MoveSource(from: nat, to: nat, i: nat): nat {
    if i == to then from
    else if from <= i < to then i + 1
    else if to < i <= from then i - 1
    else i
  }

  /**
   * Takes the element at `from` out and puts it back at position `to`; the
   * elements in between shift by one to close the gap.
   */
  function Move<T>(xs: seq<T>, from: nat, to: nat): (r: seq<T>)
    requires from < |xs| && to < |xs|
    ensures |r| == |xs|
    ensures multiset(r) == multiset(xs)
    ensures r[to] == xs[from]
    ensures forall i :: 0 <= i < |xs| && ((i < from && i < to) || (i > from && i > to)) ==> r[i] == xs[i]
    ensures forall i :: from <= i < to ==> r[i] == xs[i + 1]
    ensures forall i :: to < i <= from ==> r[i] == xs[i - 1]
    ensures forall i :: 0 <= i < |xs| ==> r[i] == xs[MoveSource(from, to, i)]
  {
    var rest := xs[..from] + xs[from + 1..];
    assert xs == xs[..from] + [xs[from]] + xs[from + 1..];
    assert rest == rest[..to] + rest[to..];
    var r := rest[..to] + [xs[from]] + rest[to..];
    MovePermutes(xs, from, rest, to, r);
    r
  }

  lemma MovePermutes<T>(xs: seq<T>, from: nat, rest: seq<T>, to: nat, r: seq<T>)
    requires from < |xs| && to < |xs|
    requires rest == xs[..from] + xs[from + 1..]
    requires r == rest[..to] + [xs[from]] + rest[to..]
    ensures multiset(r) == multiset(xs)
  {
    var x := xs[from];
    var a, b := xs[..from], xs[from + 1..];
    var c, d := rest[..to], rest[to..];
    assert xs == a + [x] + b;
    assert rest == c + d;
    calc {
      multiset(r);
      multiset(c) + multiset([x]) + multiset(d);
      multiset(c + d) + multiset([x]);
      multiset(a + b) + multiset([x]);
      multiset(a) + multiset([x]) + multiset(b);
      multiset(xs);
    }
  }

  /** Moving an element and moving it back is the identity. */
  lemma MoveBack<T>(xs: seq<T>, from: nat, to: nat)
    requires from < |xs| && to < |xs|
    ensures Move(Move(xs, from, to), to, from) == xs
  {
    var ys := Move(xs, from, to);
    var zs := Move(ys, to, from);
    forall i | 0 <= i < |xs| ensures zs[i] == xs[i] {
      var j := MoveSource(to, from, i);
      assert zs[i] == ys[j];
      assert MoveSource(from, to, j) == i;
    }
  }

  /** Rewrites every `order` field to the image's position. */
  function Renumber(xs: seq<ImageFile>): (r: seq<ImageFile>)
    ensures |r| == |xs|
    ensures forall i :: 0 <= i < |r| ==> r[i] == xs[i].(order := i)
  {
    seq(|xs|, i requires 0 <= i < |xs| => xs[i].(order := i))
  }

  /**
   * `reorderImages`: moves the image at `startIndex` to `endIndex` (both
   * read as `splice` reads them, negatives counting from the end) and
   * renumbers every `order` to its new position.
   */
  function ReorderImages(s: AppState, startIndex: int, endIndex: int): (r: AppState)
    requires |s.files.images| > 0 && startIndex < |s.files.images|
    ensures OnlyFilesChange(s, r)
    ensures r.files.primaryAudio == s.files.primaryAudio && r.files.backgroundMusic == s.files.backgroundMusic
    ensures |r.files.images| == |s.files.images|
    ensures forall i :: 0 <= i < |r.files.images| ==> r.files.images[i].order == i
    ensures var n := |s.files.images|;
      var from := SpliceIndex(startIndex, n);
      var to := SpliceIndex(endIndex, n - 1);
      forall i :: 0 <= i < n ==> r.files.images[i] == Move(s.files.images, from, to)[i].(order := i)
  {
    var xs := s.files.images;
    var from := SpliceIndex(startIndex, |xs|);
    var to := SpliceIndex(endIndex, |xs| - 1);
    s.(files := s.files.(images := Renumber(Move(xs, from, to))))
  }

  predicate Numbered(xs: seq<ImageFile>) {
    forall i :: 0 <= i < |xs| ==> xs[i].order == i
  }

  /** Moving an image and back, renumbering after each move, restores a numbered list. */
  lemma RenumberedMoveBack(xs: seq<ImageFile>, a: nat, b: nat)
    requires a < |xs| && b < |xs|
    requires Numbered(xs)
    ensures Renumber(Move(Renumber(Move(xs, a, b)), b, a)) == xs
  {
    var m := Move(xs, a, b);
    var ys := Renumber(m);
    var zs := Renumber(Move(ys, b, a));
    MoveBack(xs, a, b);
    forall i | 0 <= i < |xs| ensures zs[i] == xs[i] {
      var j := MoveSource(b, a, i);
      assert zs[i] == ys[j].(order := i);
      assert ys[j] == m[j].(order := j);
      assert Move(m, b, a)[i] == m[j];
    }
  }

  /** Dragging an image back to where it came from restores a renumbered list. */
  lemma ReorderRoundTrip(s: AppState, a: nat, b: nat)
    requires a < |s.files.images| && b < |s.files.images|
    requires Numbered(s.files.images)
    ensures ReorderImages(ReorderImages(s, a, b), b, a) == s
  {
    var xs := s.files.images;
    RenumberedMoveBack(xs, a, b);
    var t := ReorderImages(s, a, b);
    assert t.files.images == Renumber(Move(xs, a, b));
    assert ReorderImages(t, b, a).files.images == Renumber(Move(t.files.images, b, a));
  }

  /** `clearImages`: no images; both audio tracks stay. */
  function ClearImages(s: AppState): (r: AppState)
    ensures OnlyFilesChange(s, r)
    ensures r.files.images == []
    ensures r.files.primaryAudio == s.files.primaryAudio && r.files.backgroundMusic == s.files.backgroundMusic
  {
    s.(files := s.files.(images := []))
  }

  function SetTransitionType(s: AppState, t: TransitionType): (r: AppState)
    ensures OnlySettingsChange(s, r)
    ensures r.settings.transitionType == t
    ensures r.settings.backgroundMusicVolume == s.settings.backgroundMusicVolume
    ensures r.settings.outputResolution == s.settings.outputResolution
  {
    s.(settings := s.settings.(transitionType := t))
  }

  function SetBackgroundMusicVolume(s: AppState, volume: int): (r: AppState)
    ensures OnlySettingsChange(s, r)
    ensures r.settings.backgroundMusicVolume == volume
    ensures r.settings.transitionType == s.settings.transitionType
    ensures r.settings.outputResolution == s.settings.outputResolution
  {
    s.(settings := s.settings.(backgroundMusicVolume := volume))
  }

  function SetOutputResolution(s: AppState, width: nat, height: nat): (r: AppState)
    ensures OnlySettingsChange(s, r)
    ensures r.settings.outputResolution == Some(Resolution(width, height))
    ensures r.settings.transitionType == s.settings.transitionType
    ensures r.settings.backgroundMusicVolume == s.settings.backgroundMusicVolume
  {
    s.(settings := s.settings.(outputResolution := Some(Resolution(width, height))))
  }

  function SetProcessingState(s: AppState, state: ProcessingState): (r: AppState)
    ensures OnlyProcessingChanges(s, r)
    ensures r.processing.state == state
    ensures r.processing.progress == s.processing.progress && r.processing.error == s.processing.error
  {
    s.(processing := s.processing.(state := state))
  }

  function SetProgress(s: AppState, progress: Option<ProgressInfo>): (r: AppState)
    ensures OnlyProcessingChanges(s, r)
    ensures r.processing.progress == progress
    ensures r.processing.state == s.processing.state && r.processing.error == s.processing.error
  {
    s.(processing := s.processing.(progress := progress))
  }

  function SetError(s: AppState, error: Option<AppError>): (r: AppState)
    ensures OnlyProcessingChanges(s, r)
    ensures r.processing.error == error
    ensures r.processing.state == s.processing.state && r.processing.progress == s.processing.progress
  {
    s.(processing := s.processing.(error := error))
  }

  function SetGeneratedVideoUrl(s: AppState, url: Option<string>): (r: AppState)
    ensures r.generatedVideoUrl == url
    ensures r.files == s.files && r.settings == s.settings && r.processing == s.processing
  {
    s.(generatedVideoUrl := url)
  }

  /** `reset`: back to the initial state, whatever came before. */
  function Reset(s: AppState): (r: AppState)
    ensures r.files == FileState(None, None, [])
    ensures r.settings.transitionType == Fade && r.settings.backgroundMusicVolume == 25
    ensures r.settings.outputResolution == None
    ensures r.processing == ProcessingStatus(Idle, None, None)
    ensures r.generatedVideoUrl == None
  {
    InitialState
  }

  /**
   * The object URLs `reset` revokes before returning to the initial state:
   * every image preview, then the generated video's if it is a non-empty string.
   */
  function RevokedOnReset(s: AppState): (urls: seq<string>)
    ensures |urls| == |s.files.images| + (if s.generatedVideoUrl.Some? && s.generatedVideoUrl.value != "" then 1 else 0)
    ensures forall i :: 0 <= i < |s.files.images| ==> urls[i] == s.files.images[i].url
    ensures s.generatedVideoUrl.Some? && s.generatedVideoUrl.value != "" ==> urls[|urls| - 1] == s.generatedVideoUrl.value
  {
    seq(|s.files.images|, i requires 0 <= i < |s.files.images| => s.files.images[i].url)
      + (if s.generatedVideoUrl.Some? && s.generatedVideoUrl.value != "" then [s.generatedVideoUrl.value] else [])
  }

  /** `canGenerate`. */
  function CanGenerate(s: AppState): bool {
    s.files.primaryAudio.Some? && |s.files.images| > 0 && s.processing.state != Processing
  }

  /**
   * Generation is possible exactly with a primary track, at least one image
   * and no run in progress; reset rules it out, and actions on settings,
   * progress, errors or the output URL do not change it.
   */
  lemma CanGenerateCharacterised(s: AppState, audio: FileRef, imgs: seq<ImageFile>, t: TransitionType,
                                 v: int, e: Option<AppError>, p: Option<ProgressInfo>, url: Option<string>)
    ensures !CanGenerate(Reset(s))
    ensures CanGenerate(AddImages(SetPrimaryAudio(s, Some(audio)), imgs))
            <==> (|s.files.images| + |imgs| > 0 && s.processing.state != Processing)
    ensures !CanGenerate(SetProcessingState(s, Processing))
    ensures !CanGenerate(ClearImages(s))
    ensures CanGenerate(SetTransitionType(s, t)) == CanGenerate(s)
    ensures CanGenerate(SetBackgroundMusicVolume(s, v)) == CanGenerate(s)
    ensures CanGenerate(SetError(s, e)) == CanGenerate(s)
    ensures CanGenerate(SetProgress(s, p)) == CanGenerate(s)
    ensures CanGenerate(SetGeneratedVideoUrl(s, url)) == CanGenerate(s)
  {
  }

  /** Reset is idempotent and forgets everything. */
  lemma ResetForgets(s: AppState, t: AppState)
    ensures Reset(s) == Reset(t) == Reset(Reset(s)) == InitialState
  {
  }
}
