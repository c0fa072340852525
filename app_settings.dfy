/**
 * The settings record of the window and the key-by-key defaulting that
 * `load_settings` applies to a `settings.json` object (ideas.py:209-227).
 */
module AppSettings {
  import opened Wrappers

  /** `[x, y, width, height]` as passed to `setGeometry`. */
  datatype Geometry = Geometry(x: int, y: int, width: int, height: int)

  /** Every setting the window keeps; `transparency` is a Python float, here a real. */
  datatype Settings = Settings(
    geometry: Geometry,
    transparency: real,
    theme: string,
    fontFamily: string,
    fontSize: int,
    windowTitle: string,
    autostart: bool)

  /** A `settings.json` object: each key may be missing (`None`). */
  datatype SettingsFile = SettingsFile(
    geometry: Option<Geometry>,
    transparency: Option<real>,
    theme: Option<string>,
    fontFamily: Option<string>,
    fontSize: Option<int>,
    windowTitle: Option<string>,
    autostart: Option<bool>)

  /** An object with none of the keys. */
  const EmptyFile := SettingsFile(None, None, None, None, None, None, None)

  /**
   * The values the window starts with: the attributes set in `__init__`
   * and the geometry `load_settings` sets when there is no settings file.
   */
  const Initial := Settings(Geometry(100, 100, 480, 480), 0.99, "Light", "Verdana", 10, "Ideas", false)

  /**
   * `settings.get(key, default)` for every key: a present key gives its
   * stored value, a missing one its literal default.
   */
  function Lookup(f: SettingsFile): (s: Settings)
    ensures f.geometry.Some? ==> s.geometry == f.geometry.value
    ensures f.geometry.None? ==> s.geometry == Geometry(100, 100, 480, 480)
    ensures f.transparency.Some? ==> s.transparency == f.transparency.value
    ensures f.transparency.None? ==> s.transparency == 0.99
    ensures f.theme.Some? ==> s.theme == f.theme.value
    ensures f.theme.None? ==> s.theme == "Light"
    ensures f.fontFamily.Some? ==> s.fontFamily == f.fontFamily.value
    ensures f.fontFamily.None? ==> s.fontFamily == "Verdana"
    ensures f.fontSize.Some? ==> s.fontSize == f.fontSize.value
    ensures f.fontSize.None? ==> s.fontSize == 10
    ensures f.windowTitle.Some? ==> s.windowTitle == f.windowTitle.value
    ensures f.windowTitle.None? ==> s.windowTitle == "Ideas"
    ensures f.autostart.Some? ==> s.autostart == f.autostart.value
    ensures f.autostart.None? ==> !s.autostart
  {
    Settings(
      f.geometry.GetOr(Geometry(100, 100, 480, 480)),
      f.transparency.GetOr(0.99),
      f.theme.GetOr("Light"),
      f.fontFamily.GetOr("Verdana"),
      f.fontSize.GetOr(10),
      f.windowTitle.GetOr("Ideas"),
      f.autostart.GetOr(false))
  }

  /** The object `save_settings` writes: every key present. */
  function Saved(s: Settings): (f: SettingsFile)
    ensures f.geometry.Some? && f.transparency.Some? && f.theme.Some? && f.fontFamily.Some?
    ensures f.fontSize.Some? && f.windowTitle.Some? && f.autostart.Some?
  {
    SettingsFile(Some(s.geometry), Some(s.transparency), Some(s.theme), Some(s.fontFamily),
                 Some(s.fontSize), Some(s.windowTitle), Some(s.autostart))
  }

  /** Loading what was saved gives back the same settings, field for field. */
  lemma LoadAfterSave(s: Settings)
    ensures Lookup(Saved(s)) == s
  {
  }

  /**
   * The two sources of defaults agree: an object with no keys loads as the
   * values the window starts with when there is no file at all.
   */
  lemma EmptyFileLoadsInitial()
    ensures Lookup(EmptyFile) == Initial
  {
  }

  /** A saved file that lost its `autostart` key loads with autostart off and everything else kept. */
  lemma MissingAutostartLoadsFalse(s: Settings)
    ensures Lookup(Saved(s).(autostart := None)) == s.(autostart := false)
  {
  }
}
