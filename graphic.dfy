/** `generate_image` for one game: the two logo downloads, the glow step, the
    time label, the `convert` call and the clean-up of temporary files, over an
    abstract set of file paths. The foreign tools are represented by their outcomes. */
module Graphic {
  import opened Wrappers
  import opened TeamInfo
  import opened Paths
  import opened Command
  import opened GameTime

  /** The outcome of `download_file`: success, or failure that may leave a
      partial file behind (a stream that breaks after the file was opened). */
  datatype Download = Downloaded | DownloadFailed(partialFile: bool)

  /** The outcomes of the foreign steps of one game: the two downloads, the
      `identify` font probe, and the final `convert`. The glow step has no
      outcome here: on failure it copies the logo, so its output exists either way. */
  datatype Externals = Externals(
    awayDownload: Download,
    homeDownload: Download,
    fontInstalled: bool,
    convertSucceeded: bool)

  /** The values the final `convert` call is built from: the event's raw
      `date` field stands for the label computed from it. */
  datatype Invocation = Invocation(
    awayColor: string, homeColor: string, awayGlow: string, homeGlow: string,
    rawTime: Option<string>, output: string, fontInstalled: bool)
  {
    function TimeLabel(): string
    {
      GameTimeLabel(rawTime)
    }

    /** The argument list handed to `convert`, with the font fallback as written. */
    function Argv(): seq<string>
    {
      CommandSent(awayColor, homeColor, awayGlow, homeGlow, TimeLabel(), output, fontInstalled)
    }

    /** The colours, the two glow logos, the label and the output path sit in
        their slots; a failed font probe changes the divider's fill, not the font. */
    lemma ArgvLayout()
      ensures var a := Argv();
        && |a| == CommandLength
        && a[3] == "xc:" + awayColor && a[5] == homeColor
        && a[17] == awayGlow && a[25] == homeGlow
        && a[42] == TimeLabel() && a[43] == output
        && a[FontValueIndex] == PreferredFont
        && a[PatchedIndex] == (if fontInstalled then "none" else FallbackFont)
    {
      TemplateSlots(awayColor, homeColor, awayGlow, homeGlow, TimeLabel(), output);
      TemplateFontAndFill(awayColor, homeColor, awayGlow, homeGlow, TimeLabel(), output);
    }
  }

  /** What one call returns, the `convert` call when the call got that far,
      and the set of paths present afterwards. */
  datatype Render = Render(success: bool, convert: Option<Invocation>, files: set<string>)

  /** `files` without the given paths. */
  function Removed(files: set<string>, paths: seq<string>): set<string>
  {
    files - set p | p in paths
  }

  /** The `finally` loop: each temporary file that exists is removed. */
  method CleanUp(files: set<string>, temps: seq<string>) returns (remaining: set<string>)
    ensures remaining == Removed(files, temps)
    ensures forall p :: p in remaining <==> p in files && p !in temps
  {
    remaining := files;
    var i := 0;
    while i < |temps|
      invariant 0 <= i <= |temps|
      invariant remaining == Removed(files, temps[..i])
    {
      if temps[i] in remaining {
        remaining := remaining - {temps[i]};
      }
      assert temps[..i + 1] == temps[..i] + [temps[i]];
      i := i + 1;
    }
    assert temps[..i] == temps;
  }

  /** The four temporary paths of a game, as a set. */
  function TempSet(dir: string, away: string, home: string): set<string>
  {
    {TempLogo(dir, away), TempLogo(dir, home), TempGlow(dir, away), TempGlow(dir, home)}
  }

  /** The clean-up loop over the game's four temporary paths removes exactly their set. */
  lemma CleanUpRemovesTempSet(files: set<string>, dir: string, away: string, home: string)
    ensures Removed(files, TempFiles(dir, away, home)) == files - TempSet(dir, away, home)
  {
    var ts := TempFiles(dir, away, home);
    assert (set p | p in ts) == TempSet(dir, away, home);
  }

  function GenerateImage(away: Team, home: Team, rawTime: Option<string>, leagueName: string,
                         dir: string, ext: Externals, files: set<string>): Render
  {
    var awayLogo := TempLogo(dir, away.abbrev);
    var homeLogo := TempLogo(dir, home.abbrev);
    var awayGlow := TempGlow(dir, away.abbrev);
    var homeGlow := TempGlow(dir, home.abbrev);
    var output := OutputFile(dir, leagueName, away.abbrev, home.abbrev);
    if !(Truthy(away.logoUrl) && Truthy(home.logoUrl)) then
      Render(false, None, files)
    else
      match ext.awayDownload
      case DownloadFailed(partial) =>
        Render(false, None, if partial then files + {awayLogo} else files)
      case Downloaded =>
        match ext.homeDownload
        case DownloadFailed(partial) =>
          Render(false, None, (files + {awayLogo} + (if partial then {homeLogo} else {})) - {awayLogo})
        case Downloaded =>
          var withGlows := files + {awayLogo, homeLogo, awayGlow, homeGlow};
          var call := Invocation(away.color, home.color, awayGlow, homeGlow, rawTime, output, ext.fontInstalled);
          var written := if ext.convertSucceeded then withGlows + {output} else withGlows;
          Render(ext.convertSucceeded, Some(call), written - {awayLogo, homeLogo, awayGlow, homeGlow})
  }

  /** A game without two non-empty logo URLs is refused before anything is
      downloaded: it fails and the directory is unchanged. */
  lemma MissingLogoUrlSkipsGame(away: Team, home: Team, rawTime: Option<string>, leagueName: string,
                                dir: string, ext: Externals, files: set<string>)
    requires !Truthy(away.logoUrl) || !Truthy(home.logoUrl)
    ensures GenerateImage(away, home, rawTime, leagueName, dir, ext, files) == Render(false, None, files)
  {
  }

  /** A call succeeds exactly when both URLs are present, both downloads work and
      `convert` succeeds; the glow and the font probe do not matter. */
  lemma SuccessConditions(away: Team, home: Team, rawTime: Option<string>, leagueName: string,
                          dir: string, ext: Externals, files: set<string>)
    ensures GenerateImage(away, home, rawTime, leagueName, dir, ext, files).success <==>
      Truthy(away.logoUrl) && Truthy(home.logoUrl)
      && ext.awayDownload == Downloaded && ext.homeDownload == Downloaded && ext.convertSucceeded
  {
  }

  /** Once `convert` has been reached, it is called with the teams' colours,
      their glow logos, the event's timestamp, the graphic's path and the probe
      result, whatever the timestamp was; the directory afterwards is the one
      before, plus the graphic when `convert` succeeded, minus the four temporary paths. */
  lemma RenderedGame(away: Team, home: Team, rawTime: Option<string>, leagueName: string,
                     dir: string, ext: Externals, files: set<string>)
    requires Truthy(away.logoUrl) && Truthy(home.logoUrl)
    requires ext.awayDownload == Downloaded && ext.homeDownload == Downloaded
    ensures var r := GenerateImage(away, home, rawTime, leagueName, dir, ext, files);
      var output := OutputFile(dir, leagueName, away.abbrev, home.abbrev);
      && r.convert == Some(Invocation(away.color, home.color, TempGlow(dir, away.abbrev), TempGlow(dir, home.abbrev),
                                      rawTime, output, ext.fontInstalled))
      && r.files == (if ext.convertSucceeded then files + {output} else files) - TempSet(dir, away.abbrev, home.abbrev)
  {
  }

  /** For a league name without '_' or '/' other than "temp", a successful game's
      graphic survives the clean-up. */
  lemma SuccessKeepsGraphic(away: Team, home: Team, rawTime: Option<string>, leagueName: string,
                            dir: string, ext: Externals, files: set<string>)
    requires '_' !in leagueName && '/' !in leagueName && leagueName != "temp"
    requires GenerateImage(away, home, rawTime, leagueName, dir, ext, files).success
    ensures OutputFile(dir, leagueName, away.abbrev, home.abbrev) in
      GenerateImage(away, home, rawTime, leagueName, dir, ext, files).files
  {
    OutputNotTemp(dir, leagueName, away.abbrev, home.abbrev, away.abbrev);
    OutputNotTemp(dir, leagueName, away.abbrev, home.abbrev, home.abbrev);
  }

  /** The clean-up is not on every path: a failed away download that left a
      partial file leaves it behind. */
  lemma FailedDownloadLeavesFile(away: Team, home: Team, rawTime: Option<string>, leagueName: string,
                                 dir: string, ext: Externals, files: set<string>)
    requires Truthy(away.logoUrl) && Truthy(home.logoUrl)
    requires ext.awayDownload == DownloadFailed(true)
    ensures TempLogo(dir, away.abbrev) in GenerateImage(away, home, rawTime, leagueName, dir, ext, files).files
  {
  }

  /** A failed home download returns before the `finally` block, after removing
      the away logo: a partial home logo stays on disk exactly when the two teams
      have different abbreviations, since otherwise it is the away logo's path. */
  lemma FailedHomeDownload(away: Team, home: Team, rawTime: Option<string>, leagueName: string,
                           dir: string, ext: Externals, files: set<string>)
    requires Truthy(away.logoUrl) && Truthy(home.logoUrl)
    requires ext.awayDownload == Downloaded && ext.homeDownload == DownloadFailed(true)
    ensures var r := GenerateImage(away, home, rawTime, leagueName, dir, ext, files);
      && !r.success && r.convert.None?
      && TempLogo(dir, away.abbrev) !in r.files
      && (TempLogo(dir, home.abbrev) in r.files <==> away.abbrev != home.abbrev)
  {
    TempFilesDistinct(dir, away.abbrev, home.abbrev);
  }

  /** Running the same game again with the same outcomes gives the same result
      and the same directory: the graphic is overwritten, never duplicated. */
  lemma RerunIsIdempotent(away: Team, home: Team, rawTime: Option<string>, leagueName: string,
                          dir: string, ext: Externals, files: set<string>)
    ensures var r := GenerateImage(away, home, rawTime, leagueName, dir, ext, files);
      GenerateImage(away, home, rawTime, leagueName, dir, ext, r.files) == r
  {
    var r := GenerateImage(away, home, rawTime, leagueName, dir, ext, files);
    var r2 := GenerateImage(away, home, rawTime, leagueName, dir, ext, r.files);
    assert r2.files == r.files;
  }

  /** A path that is neither of the two teams' temporary files is never deleted. */
  lemma KeepsOtherFiles(away: Team, home: Team, rawTime: Option<string>, leagueName: string,
                        dir: string, ext: Externals, files: set<string>, p: string)
    requires p in files && p !in TempFiles(dir, away.abbrev, home.abbrev)
    ensures p in GenerateImage(away, home, rawTime, leagueName, dir, ext, files).files
  {
  }
}
