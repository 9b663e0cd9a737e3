/**
 * The scroll-driven scene: the sunrise and sunset palettes of the cloud
 * background, the palette pushed for a scroll progress, and the fade-in of
 * the star particle layer after half the page.
 */
module Scene {
  import opened Colour

  /** The seven named colours handed to the cloud background. */
  datatype Palette = Palette(
    backgroundColor: int,
    skyColor: int,
    cloudColor: int,
    cloudShadowColor: int,
    sunColor: int,
    sunGlareColor: int,
    sunlightColor: int)

  const Sunrise: Palette := Palette(0x89f0d1, 0x0dbff7, 0xdbadde, 0x631f82, 0xff9919, 0xffb632, 0xfff231)
  const Sunset: Palette := Palette(0x89f0d1, 0x0a13aa, 0xcd78d7, 0x2e24f2, 0xffffff, 0xfcfcfc, 0xfcfcfc)

  predicate ValidPalette(p: Palette) {
    && IsColour24(p.backgroundColor) && IsColour24(p.skyColor) && IsColour24(p.cloudColor)
    && IsColour24(p.cloudShadowColor) && IsColour24(p.sunColor) && IsColour24(p.sunGlareColor)
    && IsColour24(p.sunlightColor)
  }

  /** The options pushed on a scroll change: every colour interpolated from sunrise to sunset by t. */
  function PaletteAt(t: real): Palette {
    Palette(
      LerpColor(Sunrise.backgroundColor, Sunset.backgroundColor, t),
      LerpColor(Sunrise.skyColor, Sunset.skyColor, t),
      LerpColor(Sunrise.cloudColor, Sunset.cloudColor, t),
      LerpColor(Sunrise.cloudShadowColor, Sunset.cloudShadowColor, t),
      LerpColor(Sunrise.sunColor, Sunset.sunColor, t),
      LerpColor(Sunrise.sunGlareColor, Sunset.sunGlareColor, t),
      LerpColor(Sunrise.sunlightColor, Sunset.sunlightColor, t))
  }

  /** The top of the page shows the sunrise palette and the bottom the sunset one. */
  lemma PaletteEndpoints()
    ensures PaletteAt(0.0) == Sunrise && PaletteAt(1.0) == Sunset
  {
    LerpEndpoints(Sunrise.backgroundColor, Sunset.backgroundColor);
    LerpEndpoints(Sunrise.skyColor, Sunset.skyColor);
    LerpEndpoints(Sunrise.cloudColor, Sunset.cloudColor);
    LerpEndpoints(Sunrise.cloudShadowColor, Sunset.cloudShadowColor);
    LerpEndpoints(Sunrise.sunColor, Sunset.sunColor);
    LerpEndpoints(Sunrise.sunGlareColor, Sunset.sunGlareColor);
    LerpEndpoints(Sunrise.sunlightColor, Sunset.sunlightColor);
  }

  /** Both palettes share the background colour, so it never changes with scrolling. */
  lemma BackgroundFixed(t: real)
    ensures PaletteAt(t).backgroundColor == 0x89f0d1
  {
    LerpSame(0x89f0d1, t);
  }

  /** Every progress in [0, 1] yields seven valid 24-bit colours. */
  lemma PaletteValid(t: real)
    requires 0.0 <= t <= 1.0
    ensures ValidPalette(PaletteAt(t))
  {
    LerpBetween(Sunrise.backgroundColor, Sunset.backgroundColor, t);
    LerpBetween(Sunrise.skyColor, Sunset.skyColor, t);
    LerpBetween(Sunrise.cloudColor, Sunset.cloudColor, t);
    LerpBetween(Sunrise.cloudShadowColor, Sunset.cloudShadowColor, t);
    LerpBetween(Sunrise.sunColor, Sunset.sunColor, t);
    LerpBetween(Sunrise.sunGlareColor, Sunset.sunGlareColor, t);
    LerpBetween(Sunrise.sunlightColor, Sunset.sunlightColor, t);
  }

  /** Opacity of the star particle layer: Math.max(0, (progress - 0.5) * 2). */
  function ParticlesFade(progress: real): (f: real)
    ensures f >= 0.0
    ensures progress <= 0.5 ==> f == 0.0
    ensures progress >= 0.5 ==> f == 2.0 * progress - 1.0
    ensures progress == 1.0 ==> f == 1.0
    ensures 0.0 <= progress <= 1.0 ==> f <= 1.0
  {
    if (progress - 0.5) * 2.0 > 0.0 then (progress - 0.5) * 2.0 else 0.0
  }

  /** Scrolling further down never dims the star layer. */
  lemma FadeMonotone(p: real, q: real)
    requires p <= q
    ensures ParticlesFade(p) <= ParticlesFade(q)
  {
  }

  /**
   * The values the page holds for the cloud background and the star layer;
   * each scroll-progress change replaces both.
   */
  class SceneController {
    var options: Palette
    var particlesOpacity: real

    /** What every reachable state satisfies, whatever progress was reported. */
    ghost predicate Valid()
      reads this
    {
      options.backgroundColor == 0x89f0d1 && particlesOpacity >= 0.0
    }

    /** The effect starts with the sunrise colours and the star layer hidden: the state of progress 0. */
    constructor ()
      ensures Valid()
      ensures options == Sunrise && particlesOpacity == 0.0
      ensures options == PaletteAt(0.0) && particlesOpacity == ParticlesFade(0.0)
    {
      options := Sunrise;
      particlesOpacity := 0.0;
      PaletteEndpoints();
    }

    /** The scroll-progress subscription: push the interpolated palette and the star-layer fade. */
    method OnProgressChange(progress: real)
      requires Valid()
      modifies this
      ensures Valid()
      ensures options == PaletteAt(progress) && particlesOpacity == ParticlesFade(progress)
      ensures 0.0 <= progress <= 1.0 ==> ValidPalette(options) && particlesOpacity <= 1.0
    {
      var t := progress;
      options := PaletteAt(t);
      particlesOpacity := ParticlesFade(progress);
      BackgroundFixed(t);
      if 0.0 <= t <= 1.0 {
        PaletteValid(t);
      }
    }
  }
}
