# Game graphics generator — a Dafny model

`logo_gen_outline.py` draws one 500x500 PNG per scheduled game of four leagues
(NBA, NFL, NHL, MLB) for one date: it reads the target date from the command
line (or takes today's), fetches each league's scoreboard, picks the away and
home teams of every event, downloads their logos, adds a white glow, and has
ImageMagick's `convert` draw a diagonally split canvas in the two team colours
with both logos and the game time in Central Time, then deletes its temporary
files and counts the graphics it produced.

The model covers the decisions the program makes between those foreign calls:

- `RunDate` — the `YYYYMMDD` check of the command-line date (`strptime` with
  `%Y%m%d`), the date taken from the clock otherwise, and exit status 1 on a bad
  argument. Built on `Digits` (fixed-width decimal fields) and `Calendar`
  (proleptic Gregorian dates, the previous day, day ordinals).
- `GameTime` — the label drawn at the top: the event's `date` parsed as
  `%Y-%m-%dT%H:%MZ` (the parser matches letters case-insensitively), moved six
  hours back, written as `%I:%M %p CT` without a leading zero, and `TIME TBD`
  whenever any of that fails.
- `TeamInfo` — `get_team_info`: abbreviation with default `TBD`, the two
  colours with their `#` normalised, and the logo URL taken from the `logos`
  list (preferring an entry whose `rel` holds `default`) or the flat `logo` key.
- `Paths` — the graphic and temporary file names joined to the league directory.
- `Command` — the 44-element `convert` argument list and the font fallback.
  As written, the fallback overwrites index 13, the divider line's fill, and
  the rest of the model sends that list. The corrected fallback, which
  overwrites the font name at index 35, is defined and proved beside it (see
  Findings).
- `Graphic` — `generate_image` over an abstract set of file paths: the
  logo-URL check, the two downloads, the glow step, the label, `convert`, and
  the clean-up loop.
- `League` — `process_league`'s checks on each event, its loop and success
  counter, and `main`'s total over the configured leagues.

Network, subprocess and clock results enter as parameters: a download result
(`Downloaded` or `DownloadFailed(partialFile)`), whether the font probe found
Noto-Sans-Light, whether `convert` succeeded, the fetched scoreboard of each
league, and today's date. Three behaviours of the code are easy to misread:

- the graphic's name begins with the lower-cased league name (`nba_...`),
  because line 315 passes `LEAGUE_NAME.lower()`;
- a failed glow step does not stop the game: lines 121-125 copy the logo to
  the glow path, and lines 162-163 ignore the result;
- temporary files are not removed on every path. The `try`/`finally` of lines
  229-251 covers only the font probe and the final `convert`. The early returns
  of lines 148-155 come before it. A partial file left by a failed away download
  stays on disk (`Graphic.FailedDownloadLeavesFile`). So does one left by a
  failed home download, unless both teams have the same abbreviation: then the
  two logos share a path, and line 153 removes it (`Graphic.FailedHomeDownload`).

## Model

| member | source | states |
|---|---|---|
| Digits.ValueOfPad | logo_gen_outline.py:18-23 | a number below 10^width, written zero-padded to that width, reads back as itself |
| Digits.PadOfValue | logo_gen_outline.py:18 | a fixed-width digit field is the zero-padded text of the number it reads as |
| Digits.TwoDigitField | logo_gen_outline.py:168 | a two-digit field reads as ten times its first digit plus its second |
| Digits.FourDigitField | logo_gen_outline.py:168 | a four-digit year field reads digit by digit |
| Digits.PadTwoDigits | logo_gen_outline.py:173 | a two-digit field is the tens digit followed by the units digit |
| Digits.ValueOfDecimal | logo_gen_outline.py:174-176 | unpadded decimal text reads back as its number and has no leading zero above 0 |
| Digits.TwoDigitsWithoutLeadingZero | logo_gen_outline.py:173-176 | a two-digit field starts with '0' exactly below 10, and then is '0' followed by the unpadded text |
| Calendar.DaysInMonth | logo_gen_outline.py:18 | every month has 28 to 31 days |
| Calendar.FirstDay | logo_gen_outline.py:172 | the day ordinal of a valid date is at least 1, and is 1 exactly for 0001-01-01 |
| Calendar.PrevDayIsOneDayEarlier | logo_gen_outline.py:172 | there is no previous day exactly at 0001-01-01; otherwise it is a valid date whose ordinal is one less |
| RunDate.ParseRunDate | logo_gen_outline.py:17-21 | definition of the `%Y%m%d` check; stated by RunDate.ParseOfFormat, RunDate.FormatOfParse and RunDate.AcceptedIffCalendarDate |
| RunDate.ParseOfFormat | logo_gen_outline.py:18-23 | every valid date, written as `YYYYMMDD`, is accepted and parsed back to itself |
| RunDate.FormatOfParse | logo_gen_outline.py:18 | every accepted argument is the `YYYYMMDD` text of a valid date |
| RunDate.AcceptedIffCalendarDate | logo_gen_outline.py:17-21 | an argument is accepted if and only if it is the 8-digit text of a calendar date from year 1 to 9999 |
| RunDate.LeapDayAccepted | logo_gen_outline.py:18 | 20240229 and 20000229 are accepted |
| RunDate.LeapDayRefused | logo_gen_outline.py:18 | 20230229 and 19000229 are refused |
| RunDate.OutOfRangeRefused | logo_gen_outline.py:18 | year 0000 and month 13 are refused |
| RunDate.ResolveTargetDate | logo_gen_outline.py:14-23 | with an argument, the run uses it exactly when valid and otherwise exits with status 1; without one, it uses today's date, which is valid |
| GameTime.ParseTimestamp | logo_gen_outline.py:168 | definition of the `%Y-%m-%dT%H:%MZ` parse; stated by GameTime.ParseOfFormat, GameTime.FormatOfParse and GameTime.SeparatorCase |
| GameTime.ShiftBack | logo_gen_outline.py:172 | definition of the six-hour subtraction; stated by GameTime.ShiftBackFailsOnlyAtStart, GameTime.ShiftBackFailsBelowMin and GameTime.ShiftBackIsSixHoursEarlier |
| GameTime.Clock12 | logo_gen_outline.py:173 | definition of `%I:%M %p CT`; stated, with the leading zero dropped, by GameTime.ClockWithoutLeadingZero |
| GameTime.GameTimeLabel | logo_gen_outline.py:166-179 | definition of the time block; stated by GameTime.LabelOfTimestamp (the label in closed form) and GameTime.LabelFallback (exactly when it is "TIME TBD") |
| GameTime.ShapeFields | logo_gen_outline.py:168 | a timestamp of the expected shape is its date part (three digit fields joined by '-'), the T separator, its time part (two digit fields joined by ':') and the Z separator |
| GameTime.ParseOfFormat | logo_gen_outline.py:168 | every valid UTC minute, written as `YYYY-MM-DDTHH:MMZ`, parses back to itself |
| GameTime.FormatOfParse | logo_gen_outline.py:168 | every accepted timestamp is a valid date-time whose canonical text is the input with 'T' and 'Z' in upper case |
| GameTime.SeparatorCase | logo_gen_outline.py:168 | lower-case 't' and 'z' separators parse like upper-case ones |
| GameTime.ShiftBackFailsOnlyAtStart | logo_gen_outline.py:172-179 | moving six hours back fails exactly before 06:00 on 0001-01-01 |
| GameTime.MinutesOfMin | logo_gen_outline.py:172 | the earliest representable minute is minute 1440 of the minute scale |
| GameTime.MinutesAfterFirstDay | logo_gen_outline.py:172 | every minute after the first day is at least 2880 |
| GameTime.ShiftBackFailsBelowMin | logo_gen_outline.py:172-179 | the shift fails exactly when the result would precede the earliest representable minute |
| GameTime.ShiftBackIsSixHoursEarlier | logo_gen_outline.py:172 | a successful shift gives a valid date-time exactly 360 minutes earlier, with the hour moved back by 6 modulo 24 and the same minute |
| GameTime.StripPadded | logo_gen_outline.py:174-176 | stripping one '0' from a two-digit number and the text after it leaves the unpadded number and that text, with no leading '0' |
| GameTime.ClockWithoutLeadingZero | logo_gen_outline.py:173-176 | the clock text with its leading '0' removed is the 12-hour hour unpadded, ':', the two-digit minute, AM/PM and " CT", and never starts with '0' |
| GameTime.LabelOfTimestamp | logo_gen_outline.py:166-176 | the label of every usable timestamp is the Central Time clock six hours earlier, without leading zero |
| GameTime.LabelFallback | logo_gen_outline.py:166-179 | the label is "TIME TBD" if and only if the date is absent, does not parse, or lies within six hours of the earliest date-time |
| GameTime.EveningParsed | logo_gen_outline.py:168 | "2025-11-15T19:30Z" parses to 2025-11-15 19:30 |
| GameTime.EveningClock | logo_gen_outline.py:173-176 | 13:30 is written "1:30 PM CT" |
| GameTime.EveningExample | logo_gen_outline.py:166-176 | 2025-11-15T19:30Z is drawn as "1:30 PM CT" |
| GameTime.AfterMidnightParsed | logo_gen_outline.py:168 | "2025-11-16T00:05Z" parses to 2025-11-16 00:05 |
| GameTime.AfterMidnightClock | logo_gen_outline.py:173-176 | 18:05 is written "6:05 PM CT" |
| GameTime.AfterMidnightExample | logo_gen_outline.py:166-176 | 2025-11-16T00:05Z is drawn as "6:05 PM CT" (the previous evening) |
| GameTime.LowerCaseParsed | logo_gen_outline.py:168 | "2025-11-15t12:00z" parses to 2025-11-15 12:00 |
| GameTime.MorningClock | logo_gen_outline.py:173-176 | 06:00 is written "6:00 AM CT" |
| GameTime.LowerCaseExample | logo_gen_outline.py:168-176 | 2025-11-15t12:00z is accepted and drawn as "6:00 AM CT" |
| GameTime.NoSuchDayExample | logo_gen_outline.py:168-179 | 2025-02-30T12:00Z gives "TIME TBD" |
| GameTime.FirstHoursExample | logo_gen_outline.py:172-179 | 0001-01-01T05:59Z gives "TIME TBD" |
| TeamInfo.ResolveLogoUrl | logo_gen_outline.py:48-60 | definition of the logo URL choice; stated by TeamInfo.DefaultLogoPreferred, TeamInfo.FirstLogoOtherwise, TeamInfo.FlatLogoFallback and TeamInfo.LogoUrlSources |
| TeamInfo.LStripRemovesLeadingRun | logo_gen_outline.py:45-46 | the result is a suffix of the input, does not start with the stripped character, and everything removed was that character |
| TeamInfo.NormalizeColor | logo_gen_outline.py:45-46 | a colour is one '#' followed by a suffix of the raw value (or the default) that does not start with '#', and everything cut off is '#' |
| TeamInfo.FirstDefaultFindsFirst | logo_gen_outline.py:54 | the index found is the first logo whose `rel` holds "default"; none is found exactly when no logo has it |
| TeamInfo.GetTeamInfo | logo_gen_outline.py:41-67 | the abbreviation is the given one or "TBD", and both colours start with '#' |
| TeamInfo.ColorKeepsDigits | logo_gen_outline.py:44-45 | a colour given with or without its '#' becomes the same value, and one without '#' is kept as it is |
| TeamInfo.DefaultColors | logo_gen_outline.py:45-46 | missing colours become "#CCCCCC" and "#000000" |
| TeamInfo.NormalizeColorIdempotent | logo_gen_outline.py:45 | normalising a normalised colour changes nothing |
| TeamInfo.DefaultLogoPreferred | logo_gen_outline.py:52-56 | the first logo marked "default" supplies the URL when its `href` is non-empty |
| TeamInfo.FirstLogoOtherwise | logo_gen_outline.py:52-56 | with no "default" logo the first logo supplies the URL when its `href` is non-empty |
| TeamInfo.FlatLogoFallback | logo_gen_outline.py:58-60 | when the list gives nothing usable, the URL is the flat `logo` key (possibly absent) |
| TeamInfo.LogoUrlSources | logo_gen_outline.py:48-60 | the URL is either the flat `logo` key or the non-empty `href` of some listed logo |
| Paths.TempFiles | logo_gen_outline.py:246 | the clean-up visits four paths |
| Paths.JoinInjective | logo_gen_outline.py:133-141 | joining relative names to one directory gives equal paths exactly for equal names |
| Paths.SplitAtSeparator | logo_gen_outline.py:132-133 | two names that agree and whose prefixes hold no separator split at the same place |
| Paths.OutputNameInjective | logo_gen_outline.py:132-133 | when league and away abbreviation hold no '_', the graphic's name determines league, away and home |
| Paths.OutputNameCollision | logo_gen_outline.py:132-133 | without that condition two different games can share one graphic name |
| Paths.LogoNameNotGlowName | logo_gen_outline.py:136-141 | a logo file name is never a glow file name |
| Paths.TempNamesInjective | logo_gen_outline.py:136-141 | two teams' logo (or glow) names coincide exactly when their abbreviations do |
| Paths.TempFilesDistinct | logo_gen_outline.py:136-141 | logo paths differ from glow paths; the two logos (or glows) coincide exactly when both teams have the same abbreviation |
| Paths.OutputNotTemp | logo_gen_outline.py:133-141 | for a league name without '_' or '/' other than "temp", a graphic path is never a temporary path |
| Command.CommandSent | logo_gen_outline.py:188-235 | definition of the list as sent; stated by Command.FallbackMissesFont, Command.BuildCommand and Graphic.Invocation.ArgvLayout |
| Command.CommandTemplate | logo_gen_outline.py:188-225 | the argument list has 44 elements |
| Command.TemplateSlots | logo_gen_outline.py:188-225 | the away colour, home colour, both glow logos, the label and the output path sit at indices 3, 5, 17, 25, 42 and 43 |
| Command.TemplateIsFixedElsewhere | logo_gen_outline.py:188-225 | every other element is the same for every game |
| Command.TemplateFontAndFill | logo_gen_outline.py:204-218 | index 13 is the divider line's `none` fill; the font name is at index 35 after `-font` |
| Command.FallbackMissesFont | logo_gen_outline.py:233-235 | as written, the fallback leaves the font at Noto-Sans-Light and turns the divider's fill into "sans-serif", changing nothing else |
| Command.IntendedFallbackSetsFont | logo_gen_outline.py:230-235 | the intended fallback puts "sans-serif" after `-font` only when the probe fails and keeps the divider's fill |
| Command.ApplyFontFallback | logo_gen_outline.py:235 | the list afterwards is the old list with only the written index replaced by "sans-serif" (13 at its one call, in `BuildCommand`) |
| Command.BuildCommand | logo_gen_outline.py:188-235 | the list sent is the template with index 13 set to "sans-serif" exactly when the probe fails, and the font after `-font` stays Noto-Sans-Light |
| Graphic.GenerateImage | logo_gen_outline.py:127-251 | definition of `generate_image`; stated by Graphic.MissingLogoUrlSkipsGame, Graphic.SuccessConditions, Graphic.FailedDownloadLeavesFile, Graphic.FailedHomeDownload, Graphic.RenderedGame, Graphic.SuccessKeepsGraphic, Graphic.KeepsOtherFiles and Graphic.RerunIsIdempotent |
| Graphic.CleanUp | logo_gen_outline.py:244-251 | the paths left are exactly those present before that are none of the temporary paths |
| Graphic.MissingLogoUrlSkipsGame | logo_gen_outline.py:146-158 | without two non-empty logo URLs the game fails and the directory is unchanged |
| Graphic.SuccessConditions | logo_gen_outline.py:146-243 | a game succeeds if and only if both URLs are present, both downloads work and `convert` succeeds |
| Graphic.CleanUpRemovesTempSet | logo_gen_outline.py:244-251 | the clean-up loop over a game's four temporary paths removes exactly that set |
| Graphic.Invocation.ArgvLayout | logo_gen_outline.py:188-235 | the list sent holds the colours, both glow logos, the label and the output path in their slots, keeps the font, and changes index 13 only when the probe fails |
| Graphic.RenderedGame | logo_gen_outline.py:160-251 | once `convert` is reached, it is called with the teams' colours, glow paths, the event's timestamp, the graphic path and the probe result (the label may be "TIME TBD"), and the directory is the old one plus the graphic on success minus the four temporary paths |
| Graphic.SuccessKeepsGraphic | logo_gen_outline.py:237-251 | for a safe league name a successful game's graphic is on disk afterwards |
| Graphic.FailedDownloadLeavesFile | logo_gen_outline.py:148-150 | an away download that failed after writing part of the file leaves it on disk |
| Graphic.FailedHomeDownload | logo_gen_outline.py:151-155 | a failed home download fails the game, removes the away logo, and leaves a partial home logo exactly when the two abbreviations differ |
| Graphic.RerunIsIdempotent | logo_gen_outline.py:146-251 | running the same game again with the same outcomes gives the same result and directory |
| Graphic.KeepsOtherFiles | logo_gen_outline.py:244-251 | a path that is none of the game's temporary paths is never deleted |
| League.CheckEvent | logo_gen_outline.py:290-313 | definition of the checks on one event; stated by League.MissingDataIsEmptyAbbreviation and League.GameTeams |
| League.LeagueTally | logo_gen_outline.py:277-322 | definition of `process_league` on values; League.ProcessLeague is proved equal to it, and League.CounterCountsGraphics and League.GraphicsRemain state its count and its directory |
| League.RunLeagues | logo_gen_outline.py:336-339 | definition of `main`'s loop on values; League.RunAllLeagues is proved equal to it, and League.TotalCountsGraphics states its total |
| League.LowerEachChar | logo_gen_outline.py:315 | lower-casing keeps the length and lower-cases each letter in place |
| League.FirstOnSideFindsFirst | logo_gen_outline.py:300-301 | the index found is the first competitor on that side; none is found exactly when no competitor is on it |
| League.MissingDataIsEmptyAbbreviation | logo_gen_outline.py:310-313 | two identified teams are refused exactly when one has an empty abbreviation: the colour test never fires |
| League.GameTeams | logo_gen_outline.py:298-308 | a game is drawn with the teams of the first "away" and the first "home" competitor |
| League.Step | logo_gen_outline.py:287-318 | one event adds at most one attempt, and at most one success, and only with an attempt |
| League.HandleEvent | logo_gen_outline.py:287-318 | the loop body leaves the counter, the attempts and the directory that one step of the loop defines |
| League.RunEvents | logo_gen_outline.py:286-318 | the counter never exceeds the games attempted, which never exceed the events |
| League.CounterCountsGraphics | logo_gen_outline.py:286-316 | the counter equals the number of events whose graphic is produced, and the attempts the number of events passing the checks, whatever the directory held |
| League.StepKeeps | logo_gen_outline.py:286-318 | one more event keeps every path that is none of its game's temporary paths |
| League.LastGraphicKept | logo_gen_outline.py:315-316 | the last event's graphic, when produced, is on disk after it |
| League.GraphicSurvivesStep | logo_gen_outline.py:286-318 | a graphic on disk survives one more event |
| League.GraphicsRemain | logo_gen_outline.py:286-318 | every graphic counted is still on disk when the league is done |
| League.ProcessLeague | logo_gen_outline.py:265-322 | the count returned and the directory afterwards are those of the event loop, and 0 with nothing changed when there is no data or no `events` key |
| League.RunAllLeagues | logo_gen_outline.py:326-339 | the total and the directory are those of the four leagues run in order |
| League.TotalCountsGraphics | logo_gen_outline.py:336-339 | the total is the number of games across all leagues whose graphic is produced |
| League.ConfiguredLeagues | logo_gen_outline.py:28-33 | each league's lower-cased name is its directory name and a safe graphic prefix |

## Left out

- HTTP requests (`fetch_schedule`, `download_file`): their results are parameters; the URL text, timeouts and the 8 KB chunking are not modelled.
- The ImageMagick calls (`identify`, the glow `convert`, the final `convert`) are represented by their outcomes; the image content they produce is not modelled.
- A missing `identify` or `convert` executable raises an uncaught `FileNotFoundError` that ends the run; the model treats both tools as present.
- `shutil.copy2` failing in the glow fallback, `open` failing in a download, and `os.remove` failing in the clean-up are not modelled; in the model each of them succeeds.
- A `convert` that fails after writing part of the graphic: the model adds the graphic only on success.
- `os.makedirs`, `time.sleep(0.5)` and all printed messages: they do not affect the results.
- JSON values of types other than the model's (a field that is not a string, a `logos` or `competitors` field that is not a list, a competitor without `homeAway`, the first competitor of a side without `team`) are outside the model's types. The program copes with some of them: a `null` team is skipped at line 303, a `null` abbreviation at line 311, and a `date` that is not a string gives "TIME TBD" at lines 177-179. It raises on others, such as a `null` colour at lines 45-46, `null` competitors at line 300, or a missing `homeAway` or `team` key (`KeyError` at lines 300-301).
- `str.lower()` is modelled on ASCII letters only, and `strptime` only on fixed-width ASCII digit fields. Python's `strptime` also accepts an unpadded month, day, hour or minute, a day written as a space and one digit, and non-ASCII digits. For example, `2025111` and `202511 5` pass line 18, and line 168 reads `2025-11- 5T19:30Z` as 19:30 on 5 November, drawn as "1:30 PM CT". The model refuses the first two and labels the third "TIME TBD".
- RunDate.ResolveTargetDate: pads today's year to four digits. On glibc, `strftime('%Y')` does not pad years below 1000; such dates are not reachable from a real clock.
- Dates are proleptic Gregorian from year 1 to 9999 as in Python's `datetime`; time zones other than the fixed six-hour offset are not modelled, as in the program.

## Findings

| source | as written | input that shows it | evidently intended | confidence | as-written member | corrected member |
|---|---|---|---|---|---|---|
| logo_gen_outline.py:235 | `command[13] = 'sans-serif'` overwrites the `none` fill of the divider line (index 13), so the font stays Noto-Sans-Light and the line's fill becomes an invalid colour | any game when `identify -list font Noto-Sans-Light` exits non-zero | replace the font name after `-font`, index 35 | not executed | Command.FallbackMissesFont | Command.IntendedFallbackSetsFont |

`Command.CommandSent` is the list as written, and `Command.BuildCommand` and
`Graphic.GenerateImage` send it, as the program does. `Command.IntendedCommand`
is the corrected list. `Graphic.Invocation.ArgvLayout` states what the list
sent holds at both indices.
