/**
 * Transition filter synthesiser (app/lib/ffmpeg/transitions.ts): builds the
 * FFmpeg `filter_complex` graph that scales every image, shifts it to its
 * slot, and chains `xfade` transitions between consecutive images.
 *
 * The graph is first built as typed segments, then serialised. Real numbers
 * are turned into text by a caller-supplied `show`, standing for
 * JavaScript's number-to-string conversion; integer indices use `Decimal`.
 */
module Transitions {
  import opened Wrappers
  import opened Text
  import opened Types

  /** Length of every transition, in seconds. */
  const TransitionDuration: real := 1.0

  /** The `xfade` effects the application uses. */
  datatype XfadeEffect = XFade | XFadeBlack | XWipeRight | XWipeDown

  function EffectName(e: XfadeEffect): string {
    match e
    case XFade => "fade"
    case XFadeBlack => "fadeblack"
    case XWipeRight => "wiperight"
    case XWipeDown => "wipedown"
  }

  /** One `xfade` filter: effect, length and start offset. */
  datatype Xfade = Xfade(effect: XfadeEffect, duration: real, offset: real)

  /** `xfade=transition=<name>:duration=<d>:offset=<o>`. */
  function XfadeText(x: Xfade, show: real -> string): string {
    "xfade=transition=" + EffectName(x.effect) + ":duration=" + show(x.duration) + ":offset=" + show(x.offset)
  }

  /**
   * `getFadeFilter`, `getFadeToBlackFilter`, `getWipeLeftFilter` and
   * `getWipeUpFilter`: an absent argument takes its default (1.0 and 0);
   * a present one, zero included, is kept.
   */
  function EffectFilter(effect: XfadeEffect, duration: Option<real>, offset: Option<real>): (x: Xfade)
    ensures x.effect == effect
    ensures duration.Some? ==> x.duration == duration.value
    ensures duration.None? ==> x.duration == TransitionDuration
    ensures offset.Some? ==> x.offset == offset.value
    ensures offset.None? ==> x.offset == 0.0
  {
    Xfade(effect,
          if duration.Some? then duration.value else TransitionDuration,
          if offset.Some? then offset.value else 0.0)
  }

  datatype TransitionConfig = TransitionConfig(
    name: TransitionType,
    displayName: string,
    description: string,
    effect: XfadeEffect)

  /** `TRANSITION_CONFIGS[t]`. */
  function Config(t: TransitionType): (c: TransitionConfig)
    ensures c.name == t
    ensures c.displayName != "" && c.description != ""
  {
    match t
    case Fade => TransitionConfig(Fade, "Fade (Cross-dissolve)", "Smooth crossfade between images", XFade)
    case FadeToBlack => TransitionConfig(FadeToBlack, "Fade to Black", "Fade out to black, then fade in next image", XFadeBlack)
    case WipeLeft => TransitionConfig(WipeLeft, "Wipe Left-to-Right", "Next image wipes from left to right", XWipeRight)
    case WipeUp => TransitionConfig(WipeUp, "Wipe Up-to-Down", "Next image wipes from top to bottom", XWipeDown)
  }

  /**
   * Every configuration is filed under its own name; the kinds map to the
   * effects fade, fadeblack, wiperight and wipedown, distinct kinds to
   * distinct effects.
   */
  lemma ConfigsWellFormed(t: TransitionType, u: TransitionType)
    ensures Config(t).name == t
    ensures t != u ==> EffectName(Config(t).effect) != EffectName(Config(u).effect)
    ensures EffectName(Config(Fade).effect) == "fade"
    ensures EffectName(Config(FadeToBlack).effect) == "fadeblack"
    ensures EffectName(Config(WipeLeft).effect) == "wiperight"
    ensures EffectName(Config(WipeUp).effect) == "wipedown"
  {
  }

  /** JavaScript's `v || fallback` on an optional number: absent or zero falls back. */
  function OrDefault(v: Option<real>, fallback: real): real {
    if v.None? || v.value == 0.0 then fallback else v.value
  }

  /** `getTransitionFilter`: the configured effect, with missing or zero arguments defaulted. */
  function GetTransitionFilter(t: TransitionType, duration: Option<real>, offset: Option<real>): (x: Xfade)
    ensures x.effect == Config(t).effect
    ensures duration.None? || duration.value == 0.0 ==> x.duration == TransitionDuration
    ensures duration.Some? && duration.value != 0.0 ==> x.duration == duration.value
    ensures offset.None? || offset.value == 0.0 ==> x.offset == 0.0
    ensures offset.Some? && offset.value != 0.0 ==> x.offset == offset.value
  {
    EffectFilter(Config(t).effect, Some(OrDefault(duration, TransitionDuration)), Some(OrDefault(offset, 0.0)))
  }

  /** A stream label in the graph: an input `[i:v]`, a scaled image `[vi]`, an intermediate `[vti]`, or `[vout]`. */
  datatype Pad = InputPad(k: nat) | Scaled(k: nat) | Chained(k: nat) | Out

  function PadName(p: Pad): string {
    match p
    case InputPad(k) => Decimal(k) + ":v"
    case Scaled(k) => "v" + Decimal(k)
    case Chained(k) => "vt" + Decimal(k)
    case Out => "vout"
  }

  function Bracket(p: Pad): string {
    "[" + PadName(p) + "]"
  }

  /** One `;`-separated instruction of the filter graph. */
  datatype Segment =
    | ScaleOnly(input: nat, out: Pad)
    | ScaleShift(input: nat, shift: real, out: Pad)
    | Transition(left: Pad, right: Pad, filter: Xfade, out: Pad)

  function Render(s: Segment, show: real -> string): string {
    match s
    case ScaleOnly(i, out) => Bracket(InputPad(i)) + "scale=iw:ih" + Bracket(out)
    case ScaleShift(i, shift, out) =>
      Bracket(InputPad(i)) + "scale=iw:ih,setpts=PTS-STARTPTS+" + show(shift) + "/TB" + Bracket(out)
    case Transition(l, r, x, out) => Bracket(l) + Bracket(r) + XfadeText(x, show) + Bracket(out)
  }

  /** The scale segments of images `i .. n-1`, each shifted to the start of its slot. */
  function Scales(n: nat, i: nat, d: real): (ss: seq<Segment>)
    requires i <= n
    decreases n - i
  {
    if i == n then [] else [ScaleShift(i, i as real * d, Scaled(i))] + Scales(n, i + 1, d)
  }

  lemma {:induction false} ScalesShape(n: nat, i: nat, d: real)
    requires i <= n
    ensures |Scales(n, i, d)| == n - i
    ensures forall k :: i <= k < n ==> Scales(n, i, d)[k - i] == ScaleShift(k, k as real * d, Scaled(k))
    decreases n - i
  {
    if i < n {
      ScalesShape(n, i + 1, d);
    }
  }

  /**
   * The transitions `i .. n-2`, threading the current stream label as the
   * source's loop does: each transition's output becomes the next one's
   * left operand, and the last one writes `[vout]`.
   */
  function Chain(t: TransitionType, offset: real, n: nat, i: nat, current: Pad): seq<Segment>
    decreases n - i
  {
    if i + 1 >= n then []
    else
      var next := if i == n - 2 then Out else Chained(i);
      [Transition(current, Scaled(i + 1), GetTransitionFilter(t, Some(TransitionDuration), Some(offset)), next)]
        + Chain(t, offset, n, i + 1, next)
  }

  /** The label transition `j` reads on its left once the chain starts at `i` with `current`. */
  function LeftOf(i: nat, current: Pad, j: nat): Pad {
    if j <= i then current else Chained(j - 1)
  }

  function OutOf(n: nat, j: nat): Pad {
    if j == n - 2 then Out else Chained(j)
  }

  lemma {:induction false} ChainShape(t: TransitionType, offset: real, n: nat, i: nat, current: Pad)
    requires i + 1 <= n
    requires i > 0 ==> current == OutOf(n, i - 1)
    ensures |Chain(t, offset, n, i, current)| == n - 1 - i
    ensures forall j :: i <= j < n - 1 ==>
      Chain(t, offset, n, i, current)[j - i]
        == Transition(LeftOf(i, current, j), Scaled(j + 1),
                      GetTransitionFilter(t, Some(TransitionDuration), Some(offset)), OutOf(n, j))
    decreases n - i
  {
    if i + 1 < n {
      var next := if i == n - 2 then Out else Chained(i);
      ChainShape(t, offset, n, i + 1, next);
      var c := Chain(t, offset, n, i, current);
      forall j | i + 1 <= j < n - 1
        ensures c[j - i] == Transition(LeftOf(i, current, j), Scaled(j + 1),
                      GetTransitionFilter(t, Some(TransitionDuration), Some(offset)), OutOf(n, j))
      {
        assert c[j - i] == Chain(t, offset, n, i + 1, next)[j - (i + 1)];
        assert LeftOf(i + 1, next, j) == LeftOf(i, current, j);
      }
    }
  }

  /** The typed graph for `imageCount` images of `imageDuration` seconds each. */
  function Plan(imageCount: int, imageDuration: real, t: TransitionType): (p: seq<Segment>)
    ensures imageCount == 1 ==> p == [ScaleOnly(0, Scaled(0))]
    ensures imageCount <= 0 ==> p == []
    ensures imageCount > 1 ==>
      && |p| == 2 * imageCount - 1
      && (forall i :: 0 <= i < imageCount ==>
            p[i] == ScaleShift(i, i as real * imageDuration, Scaled(i)))
      && (forall k :: imageCount <= k < 2 * imageCount - 1 ==>
            && p[k].Transition?
            && p[k].left == (if k == imageCount then Scaled(0) else Chained(k - imageCount - 1))
            && p[k].right == Scaled(k - imageCount + 1)
            && p[k].out == (if k == 2 * imageCount - 2 then Out else Chained(k - imageCount))
            && p[k].filter == Xfade(Config(t).effect, TransitionDuration, imageDuration - TransitionDuration))
      && (forall k :: imageCount < k < 2 * imageCount - 1 ==> p[k].left == p[k - 1].out)
  {
    if imageCount == 1 then [ScaleOnly(0, Scaled(0))]
    else if imageCount <= 0 then []
    else
      var offset := imageDuration - TransitionDuration;
      MultiImagePlanShape(imageCount, imageDuration, t);
      Scales(imageCount, 0, imageDuration) + Chain(t, offset, imageCount, 0, Scaled(0))
  }

  /** The scale segments come first, then the transitions, each reading the previous one's output. */
  lemma MultiImagePlanShape(n: nat, d: real, t: TransitionType)
    requires n > 1
    ensures var p := Scales(n, 0, d) + Chain(t, d - TransitionDuration, n, 0, Scaled(0));
      && |p| == 2 * n - 1
      && (forall i :: 0 <= i < n ==> p[i] == ScaleShift(i, i as real * d, Scaled(i)))
      && (forall k :: n <= k < 2 * n - 1 ==>
            && p[k].Transition?
            && p[k].left == (if k == n then Scaled(0) else Chained(k - n - 1))
            && p[k].right == Scaled(k - n + 1)
            && p[k].out == (if k == 2 * n - 2 then Out else Chained(k - n))
            && p[k].filter == Xfade(Config(t).effect, TransitionDuration, d - TransitionDuration))
      && (forall k :: n < k < 2 * n - 1 ==> p[k].left == p[k - 1].out)
  {
    var offset := d - TransitionDuration;
    ScalesShape(n, 0, d);
    ChainShape(t, offset, n, 0, Scaled(0));
    var ss := Scales(n, 0, d);
    var c := Chain(t, offset, n, 0, Scaled(0));
    var p := ss + c;
    var x := GetTransitionFilter(t, Some(TransitionDuration), Some(offset));
    assert x == Xfade(Config(t).effect, TransitionDuration, offset);
    forall i | 0 <= i < n
      ensures p[i] == ScaleShift(i, i as real * d, Scaled(i))
    {
      assert p[i] == ss[i];
    }
    forall k | n <= k < 2 * n - 1
      ensures p[k] == Transition(LeftOf(0, Scaled(0), k - n), Scaled(k - n + 1), x, OutOf(n, k - n))
    {
      assert p[k] == c[k - n];
    }
  }

  /** The offset is not clamped: with slots shorter than a second every transition starts before zero. */
  lemma OffsetNotClamped(imageCount: int, imageDuration: real, t: TransitionType, k: nat)
    requires imageCount <= k < 2 * imageCount - 1
    requires imageDuration < TransitionDuration
    ensures Plan(imageCount, imageDuration, t)[k].filter.offset < 0.0
  {
  }

  /** `buildTransitionFilterComplex`: the serialised graph, segments joined by `;`. */
  function BuildTransitionFilterComplex(imageCount: int, imageDuration: real, t: TransitionType,
                                        show: real -> string): (s: string)
    ensures imageCount == 1 ==> s == "[0:v]scale=iw:ih[v0]"
  {
    var p := Plan(imageCount, imageDuration, t);
    var parts := seq(|p|, i requires 0 <= i < |p| => Render(p[i], show));
    if imageCount == 1 then
      SingleImageGraph(show);
      assert parts == [Render(ScaleOnly(0, Scaled(0)), show)];
      Join(parts, ';')
    else Join(parts, ';')
  }

  lemma SingleImageGraph(show: real -> string)
    ensures Render(ScaleOnly(0, Scaled(0)), show) == "[0:v]scale=iw:ih[v0]"
  {
    assert Decimal(0) == "0";
  }

  predicate Free(s: string) {
    forall i :: 0 <= i < |s| ==> s[i] != ';'
  }

  lemma FreeConcat(a: string, b: string)
    requires Free(a) && Free(b)
    ensures Free(a + b)
  {
    forall i | 0 <= i < |a + b| ensures (a + b)[i] != ';' {
      if i >= |a| {
        assert (a + b)[i] == b[i - |a|];
      }
    }
  }

  lemma PadFree(p: Pad)
    ensures Free(Bracket(p))
  {
    var d := match p
      case InputPad(k) => Decimal(k)
      case Scaled(k) => Decimal(k)
      case Chained(k) => Decimal(k)
      case Out => "";
    assert Free(d);
    match p
    case InputPad(k) =>
      FreeConcat(d, ":v");
      FreeConcat("[", d + ":v");
      FreeConcat("[" + (d + ":v"), "]");
    case Scaled(k) =>
      FreeConcat("v", d);
      FreeConcat("[", "v" + d);
      FreeConcat("[" + ("v" + d), "]");
    case Chained(k) =>
      FreeConcat("vt", d);
      FreeConcat("[", "vt" + d);
      FreeConcat("[" + ("vt" + d), "]");
    case Out =>
  }

  lemma XfadeFree(x: Xfade, show: real -> string)
    requires Free(show(x.duration)) && Free(show(x.offset))
    ensures Free(XfadeText(x, show))
  {
    var a := "xfade=transition=" + EffectName(x.effect);
    assert Free(EffectName(x.effect));
    FreeConcat("xfade=transition=", EffectName(x.effect));
    FreeConcat(a, ":duration=");
    FreeConcat(a + ":duration=", show(x.duration));
    FreeConcat(a + ":duration=" + show(x.duration), ":offset=");
    FreeConcat(a + ":duration=" + show(x.duration) + ":offset=", show(x.offset));
  }

  /** Number text never contains the segment separator. */
  ghost predicate SeparatorFree(show: real -> string) {
    forall x :: Free(show(x))
  }

  lemma ScaleOnlyFree(i: nat, out: Pad, show: real -> string)
    ensures Free(Render(ScaleOnly(i, out), show))
  {
    PadFree(InputPad(i));
    PadFree(out);
    FreeConcat(Bracket(InputPad(i)), "scale=iw:ih");
    FreeConcat(Bracket(InputPad(i)) + "scale=iw:ih", Bracket(out));
  }

  lemma ScaleShiftFree(i: nat, shift: real, out: Pad, show: real -> string)
    requires Free(show(shift))
    ensures Free(Render(ScaleShift(i, shift, out), show))
  {
    var a := Bracket(InputPad(i)) + "scale=iw:ih,setpts=PTS-STARTPTS+";
    PadFree(InputPad(i));
    PadFree(out);
    FreeConcat(Bracket(InputPad(i)), "scale=iw:ih,setpts=PTS-STARTPTS+");
    FreeConcat(a, show(shift));
    FreeConcat(a + show(shift), "/TB");
    FreeConcat(a + show(shift) + "/TB", Bracket(out));
  }

  lemma TransitionFree(l: Pad, r: Pad, x: Xfade, out: Pad, show: real -> string)
    requires Free(show(x.duration)) && Free(show(x.offset))
    ensures Free(Render(Transition(l, r, x, out), show))
  {
    PadFree(l);
    PadFree(r);
    PadFree(out);
    XfadeFree(x, show);
    FreeConcat(Bracket(l), Bracket(r));
    FreeConcat(Bracket(l) + Bracket(r), XfadeText(x, show));
    FreeConcat(Bracket(l) + Bracket(r) + XfadeText(x, show), Bracket(out));
  }

  lemma RenderSeparatorFree(s: Segment, show: real -> string)
    requires SeparatorFree(show)
    ensures ';' !in Render(s, show)
  {
    match s
    case ScaleOnly(i, out) =>
      ScaleOnlyFree(i, out, show);
    case ScaleShift(i, shift, out) =>
      assert Free(show(shift));
      ScaleShiftFree(i, shift, out, show);
    case Transition(l, r, x, out) =>
      assert Free(show(x.duration)) && Free(show(x.offset));
      TransitionFree(l, r, x, out, show);
  }

  /**
   * Splitting the serialised graph at `;` gives back exactly the rendered
   * segments of the plan: `2N-1` of them for `N > 1` images, of which the
   * last `N-1` are the transitions.
   */
  lemma FilterComplexSegments(imageCount: int, imageDuration: real, t: TransitionType, show: real -> string)
    requires imageCount >= 1
    requires SeparatorFree(show)
    ensures var p := Plan(imageCount, imageDuration, t);
      Split(BuildTransitionFilterComplex(imageCount, imageDuration, t, show), ';')
        == seq(|p|, i requires 0 <= i < |p| => Render(p[i], show))
    ensures |Split(BuildTransitionFilterComplex(imageCount, imageDuration, t, show), ';')| == 2 * imageCount - 1
  {
    var p := Plan(imageCount, imageDuration, t);
    var parts := seq(|p|, i requires 0 <= i < |p| => Render(p[i], show));
    forall i | 0 <= i < |parts| ensures ';' !in parts[i] {
      RenderSeparatorFree(p[i], show);
    }
    SplitJoin(parts, ';');
  }
}
