/** The set of changes a caller asks for in one request to a light
    (`LightBulbProperties`): each value travels with a platform flag that
    says whether it is to be applied. */
module LightBulbProperties {
  import opened Common
  import Platform

  /** One request. Flags are platform booleans (read with
      `Platform.ToBool`); an XY pair or a colour string that is `None`
      is a null reference. Percentages are carried but, being scaled in
      floating point, are only passed through. */
  datatype Properties = Properties(
    setBrightness: Platform.Int16,
    brightness: UShort,
    setBrightnessPercentage: Platform.Int16,
    brightnessPercentage: UShort,
    setHue: Platform.Int16,
    hue: UShort,
    setSaturation: Platform.Int16,
    saturation: UShort,
    setSaturationPercentage: Platform.Int16,
    saturationPercentage: UShort,
    setXY: Platform.Int16,
    xy: Option<(real, real)>,
    setColorTemperature: Platform.Int16,
    colorTemperature: UShort,
    colorNameOrHexRgb: Option<string>,
    setBrightnessOffset: Platform.Int16,
    brightnessOffset: Short,
    setHueOffset: Platform.Int16,
    hueOffset: Int32,
    setSaturationOffset: Platform.Int16,
    saturationOffset: Short,
    setXYOffset: Platform.Int16,
    xyOffset: Option<(real, real)>,
    setColorTemperatureOffset: Platform.Int16,
    colorTemperatureOffset: Short,
    transitionTimeToUse: Short)
  {
    /** No flag is raised. */
    predicate NothingSet()
    {
      !Platform.ToBool(setBrightness) && !Platform.ToBool(setHue) && !Platform.ToBool(setSaturation) &&
      !Platform.ToBool(setXY) && !Platform.ToBool(setColorTemperature) && colorNameOrHexRgb.None? &&
      !Platform.ToBool(setBrightnessOffset) && !Platform.ToBool(setHueOffset) &&
      !Platform.ToBool(setSaturationOffset) && !Platform.ToBool(setXYOffset) &&
      !Platform.ToBool(setColorTemperatureOffset)
    }
  }

  /** A request made with the default constructor: every flag clear,
      every value zero or null, and no transition time of its own. */
  function Empty(): (p: Properties)
    ensures p.NothingSet() && p.transitionTimeToUse == -1
  {
    Properties(0, 0, 0, 0, 0, 0, 0, 0, 0, 0, 0, None, 0, 0, None, 0, 0, 0, 0, 0, 0, 0, None, 0, 0, -1)
  }
}
