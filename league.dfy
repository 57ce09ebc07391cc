/** `process_league` and `main`: the walk over one league's scoreboard events,
    the checks that skip an event, the success counter, and the total over the
    configured leagues. The scoreboard fetch is represented by its result. */
module League {
  import opened Wrappers
  import opened TeamInfo
  import opened Paths
  import opened Graphic

  /** One element of a competition's `competitors` list. */
  datatype Competitor = Competitor(homeAway: string, team: TeamData)

  /** A competition; None: it has no `competitors` key. */
  datatype Competition = Competition(competitors: Option<seq<Competitor>>)

  /** An event; an absent `competitions` key reads as the empty list. */
  datatype Event = Event(date: Option<string>, competitions: seq<Competition>)

  /** The decoded scoreboard; None: it has no `events` key (the empty object included). */
  datatype Scoreboard = Scoreboard(events: Option<seq<Event>>)

  datatype LeagueConfig = LeagueConfig(sport: string, league: string, name: string)

  const BaseDirName := "game_graphics"

  const LeagueConfigs := [
    LeagueConfig("basketball", "nba", "NBA"),
    LeagueConfig("football", "nfl", "NFL"),
    LeagueConfig("hockey", "nhl", "NHL"),
    LeagueConfig("baseball", "mlb", "MLB")
  ]

  function LowerChar(c: char): char
  {
    if 'A' <= c <= 'Z' then (c as int + 32) as char else c
  }

  /** `s.lower()` on ASCII letters. */
  function Lower(s: string): (r: string)
    ensures |r| == |s|
  {
    if s == [] then [] else [LowerChar(s[0])] + Lower(s[1..])
  }

  /** Lower-casing works letter by letter, in place. */
  lemma {:induction false} LowerEachChar(s: string)
    ensures forall i :: 0 <= i < |s| ==> Lower(s)[i] == LowerChar(s[i])
  {
    if s != [] {
      LowerEachChar(s[1..]);
      forall i | 1 <= i < |s| ensures Lower(s)[i] == LowerChar(s[i]) {
        assert Lower(s)[i] == Lower(s[1..])[i - 1];
      }
    }
  }

  /** The index of the first competitor on the given side, if any (the `next(...)` search). */
  function FirstOnSide(cs: seq<Competitor>, side: string): (r: Option<nat>)
    ensures r.Some? ==> r.value < |cs|
  {
    if cs == [] then None
    else if cs[0].homeAway == side then Some(0)
    else
      match FirstOnSide(cs[1..], side)
      case None => None
      case Some(i) => Some(i + 1)
  }

  /** The search finds the first competitor on that side, and finds nothing
      exactly when no competitor is on it. */
  lemma {:induction false} FirstOnSideFindsFirst(cs: seq<Competitor>, side: string)
    ensures var r := FirstOnSide(cs, side);
      && (r.Some? ==> cs[r.value].homeAway == side)
      && (r.Some? ==> forall j :: 0 <= j < r.value ==> cs[j].homeAway != side)
      && (r.None? ==> forall j :: 0 <= j < |cs| ==> cs[j].homeAway != side)
  {
    if cs != [] && cs[0].homeAway != side {
      FirstOnSideFindsFirst(cs[1..], side);
      forall j | 1 <= j < |cs| ensures cs[j] == cs[1..][j - 1] {
      }
    }
  }

  /** The team object of the first competitor on the given side. */
  function SideTeam(cs: seq<Competitor>, side: string): Option<TeamData>
  {
    match FirstOnSide(cs, side)
    case None => None
    case Some(i) => Some(cs[i].team)
  }

  /** Why an event is skipped before `generate_image`. */
  datatype Skip = NoCompetitionData | TeamsNotIdentified | MissingTeamData

  /** The checks of one event: a reason to skip it, or the two teams to draw. */
  datatype Gate = Skipped(reason: Skip) | Game(away: Team, home: Team)

  predicate Identified(t: Option<TeamData>)
  {
    t.Some? && t.value.NonEmpty()
  }

  function CheckEvent(e: Event): Gate
  {
    if e.competitions == [] || e.competitions[0].competitors.None? then
      Skipped(NoCompetitionData)
    else
      var cs := e.competitions[0].competitors.value;
      var awayData, homeData := SideTeam(cs, "away"), SideTeam(cs, "home");
      if !Identified(awayData) || !Identified(homeData) then
        Skipped(TeamsNotIdentified)
      else
        var away, home := GetTeamInfo(awayData.value), GetTeamInfo(homeData.value);
        if away.abbrev == [] || away.color == [] || home.abbrev == [] || home.color == [] then
          Skipped(MissingTeamData)
        else
          Game(away, home)
  }

  /** The colour test is never what skips a game: an identified pair of teams is
      refused exactly when one of them has an empty abbreviation. */
  lemma MissingDataIsEmptyAbbreviation(e: Event)
    requires e.competitions != [] && e.competitions[0].competitors.Some?
    requires Identified(SideTeam(e.competitions[0].competitors.value, "away"))
    requires Identified(SideTeam(e.competitions[0].competitors.value, "home"))
    ensures CheckEvent(e) == Skipped(MissingTeamData) <==>
      SideTeam(e.competitions[0].competitors.value, "away").value.abbreviation == Some("") ||
      SideTeam(e.competitions[0].competitors.value, "home").value.abbreviation == Some("")
  {
  }

  /** An event is drawn with the first "away" and the first "home" competitor's teams. */
  lemma GameTeams(e: Event)
    requires CheckEvent(e).Game?
    ensures var cs := e.competitions[0].competitors.value;
      && FirstOnSide(cs, "away").Some? && FirstOnSide(cs, "home").Some?
      && CheckEvent(e).away == GetTeamInfo(cs[FirstOnSide(cs, "away").value].team)
      && CheckEvent(e).home == GetTeamInfo(cs[FirstOnSide(cs, "home").value].team)
  {
  }

  /** The counter, the number of games handed to `generate_image`, and the directory. */
  datatype Tally = Tally(successes: nat, attempts: nat, files: set<string>)

  /** One pass of the loop body on event `e` with foreign outcomes `x`. */
  function Step(prev: Tally, e: Event, x: Externals, leagueName: string, dir: string): (t: Tally)
    ensures t.attempts <= prev.attempts + 1
    ensures t.successes - prev.successes <= t.attempts - prev.attempts
  {
    match CheckEvent(e)
    case Skipped(_) => prev
    case Game(away, home) =>
      var r := GenerateImage(away, home, e.date, Lower(leagueName), dir, x, prev.files);
      Tally(prev.successes + (if r.success then 1 else 0), prev.attempts + 1, r.files)
  }

  /** The event loop of `process_league` after the first `|events|` events; the
      foreign outcomes of event `i` are `ext(i)`. */
  function RunEvents(events: seq<Event>, leagueName: string, dir: string,
                     ext: nat -> Externals, files: set<string>): (t: Tally)
    ensures t.successes <= t.attempts <= |events|
  {
    if events == [] then Tally(0, 0, files)
    else
      var n := |events| - 1;
      Step(RunEvents(events[..n], leagueName, dir, ext, files), events[n], ext(n), leagueName, dir)
  }

  /** Whether an event yields a graphic, judged from the event and the foreign
      outcomes alone, without the directory. */
  predicate Succeeds(e: Event, x: Externals)
  {
    match CheckEvent(e)
    case Skipped(_) => false
    case Game(away, home) =>
      Truthy(away.logoUrl) && Truthy(home.logoUrl)
      && x.awayDownload == Downloaded && x.homeDownload == Downloaded && x.convertSucceeded
  }

  /** The number of events that yield a graphic. */
  function CountSucceeding(events: seq<Event>, ext: nat -> Externals): nat
  {
    if events == [] then 0
    else
      var n := |events| - 1;
      CountSucceeding(events[..n], ext) + (if Succeeds(events[n], ext(n)) then 1 else 0)
  }

  /** The number of events that pass the checks. */
  function CountGames(events: seq<Event>): nat
  {
    if events == [] then 0
    else
      var n := |events| - 1;
      CountGames(events[..n]) + (if CheckEvent(events[n]).Game? then 1 else 0)
  }

  /** The counter is the number of events whose graphic was produced, and the
      attempts are the events that passed the checks, whatever the directory held. */
  lemma {:induction false} CounterCountsGraphics(events: seq<Event>, leagueName: string, dir: string,
                                                ext: nat -> Externals, files: set<string>)
    ensures RunEvents(events, leagueName, dir, ext, files).successes == CountSucceeding(events, ext)
    ensures RunEvents(events, leagueName, dir, ext, files).attempts == CountGames(events)
    decreases |events|
  {
    if events != [] {
      var n := |events| - 1;
      var prev := RunEvents(events[..n], leagueName, dir, ext, files);
      CounterCountsGraphics(events[..n], leagueName, dir, ext, files);
      match CheckEvent(events[n])
      case Skipped(_) =>
      case Game(away, home) =>
        SuccessConditions(away, home, events[n].date, Lower(leagueName), dir, ext(n), prev.files);
    }
  }

  predicate SafeLeague(league: string)
  {
    '_' !in league && '/' !in league && league != "temp"
  }

  /** One step of the loop keeps a path that is none of that game's temporary files. */
  lemma {:induction false} StepKeeps(events: seq<Event>, leagueName: string, dir: string,
                                     ext: nat -> Externals, files: set<string>, p: string)
    requires events != []
    requires p in RunEvents(events[..|events| - 1], leagueName, dir, ext, files).files
    requires var g := CheckEvent(events[|events| - 1]);
      g.Game? ==>
        p != TempLogo(dir, g.away.abbrev) && p != TempLogo(dir, g.home.abbrev) &&
        p != TempGlow(dir, g.away.abbrev) && p != TempGlow(dir, g.home.abbrev)
    ensures p in RunEvents(events, leagueName, dir, ext, files).files
  {
    var n := |events| - 1;
    var prev := RunEvents(events[..n], leagueName, dir, ext, files);
    var g := CheckEvent(events[n]);
    if g.Game? {
      KeepsOtherFiles(g.away, g.home, events[n].date, Lower(leagueName), dir, ext(n), prev.files, p);
    }
  }

  /** The graphic of a successful last game is on disk after it. */
  lemma {:induction false} LastGraphicKept(events: seq<Event>, leagueName: string, dir: string,
                                          ext: nat -> Externals, files: set<string>, away: Team, home: Team)
    requires SafeLeague(Lower(leagueName)) && events != []
    requires CheckEvent(events[|events| - 1]) == Game(away, home) && Succeeds(events[|events| - 1], ext(|events| - 1))
    ensures OutputFile(dir, Lower(leagueName), away.abbrev, home.abbrev) in RunEvents(events, leagueName, dir, ext, files).files
  {
    var n := |events| - 1;
    var prev := RunEvents(events[..n], leagueName, dir, ext, files);
    SuccessConditions(away, home, events[n].date, Lower(leagueName), dir, ext(n), prev.files);
    SuccessKeepsGraphic(away, home, events[n].date, Lower(leagueName), dir, ext(n), prev.files);
  }

  /** A graphic on disk survives one more step of the loop. */
  lemma {:induction false} GraphicSurvivesStep(events: seq<Event>, leagueName: string, dir: string,
                                              ext: nat -> Externals, files: set<string>,
                                              away: string, home: string)
    requires SafeLeague(Lower(leagueName)) && events != []
    requires OutputFile(dir, Lower(leagueName), away, home) in RunEvents(events[..|events| - 1], leagueName, dir, ext, files).files
    ensures OutputFile(dir, Lower(leagueName), away, home) in RunEvents(events, leagueName, dir, ext, files).files
  {
    var last := CheckEvent(events[|events| - 1]);
    if last.Game? {
      OutputNotTemp(dir, Lower(leagueName), away, home, last.away.abbrev);
      OutputNotTemp(dir, Lower(leagueName), away, home, last.home.abbrev);
    }
    StepKeeps(events, leagueName, dir, ext, files, OutputFile(dir, Lower(leagueName), away, home));
  }

  /** Every graphic the counter counted is still on disk when the league is done:
      later games only delete their own temporary files. */
  lemma {:induction false} GraphicsRemain(events: seq<Event>, leagueName: string, dir: string,
                                         ext: nat -> Externals, files: set<string>, i: nat,
                                         away: Team, home: Team)
    requires SafeLeague(Lower(leagueName))
    requires i < |events| && CheckEvent(events[i]) == Game(away, home) && Succeeds(events[i], ext(i))
    ensures OutputFile(dir, Lower(leagueName), away.abbrev, home.abbrev) in RunEvents(events, leagueName, dir, ext, files).files
    decreases |events|
  {
    var n := |events| - 1;
    if i == n {
      LastGraphicKept(events, leagueName, dir, ext, files, away, home);
    } else {
      assert events[..n][i] == events[i];
      GraphicsRemain(events[..n], leagueName, dir, ext, files, i, away, home);
      GraphicSurvivesStep(events, leagueName, dir, ext, files, away.abbrev, home.abbrev);
    }
  }

  /** `os.path.join(BASE_OUTPUT_DIR, LEAGUE)`. */
  function LeagueDir(date: string, config: LeagueConfig): string
  {
    Join(Join(BaseDirName, date), config.league)
  }

  /** `process_league(config)` given the fetch result. */
  function LeagueTally(config: LeagueConfig, date: string, fetched: Option<Scoreboard>,
                       ext: nat -> Externals, files: set<string>): Tally
  {
    if fetched.None? || fetched.value.events.None? then Tally(0, 0, files)
    else RunEvents(fetched.value.events.value, config.name, LeagueDir(date, config), ext, files)
  }

  /** The loop body on one event: the checks, then `generate_image` and the counter. */
  method HandleEvent(e: Event, x: Externals, leagueName: string, dir: string,
                     processed: nat, attempts: nat, files: set<string>)
    returns (processed': nat, attempts': nat, files': set<string>)
    ensures Tally(processed', attempts', files') == Step(Tally(processed, attempts, files), e, x, leagueName, dir)
  {
    processed', attempts', files' := processed, attempts, files;
    var gate := CheckEvent(e);
    if gate.Game? {
      var r := GenerateImage(gate.away, gate.home, e.date, Lower(leagueName), dir, x, files);
      if r.success {
        processed' := processed' + 1;
      }
      attempts' := attempts' + 1;
      files' := r.files;
    }
  }

  /** `process_league(config)`: the event loop and its counter. */
  method ProcessLeague(config: LeagueConfig, date: string, fetched: Option<Scoreboard>,
                       ext: nat -> Externals, files: set<string>)
    returns (processed: nat, remaining: set<string>)
    ensures processed == LeagueTally(config, date, fetched, ext, files).successes
    ensures remaining == LeagueTally(config, date, fetched, ext, files).files
  {
    processed, remaining := 0, files;
    if fetched.None? || fetched.value.events.None? {
      return;
    }
    var events := fetched.value.events.value;
    var dir := LeagueDir(date, config);
    var attempts := 0;
    var i := 0;
    while i < |events|
      invariant 0 <= i <= |events|
      invariant RunEvents(events[..i], config.name, dir, ext, files) == Tally(processed, attempts, remaining)
    {
      assert events[..i + 1][..i] == events[..i];
      processed, attempts, remaining := HandleEvent(events[i], ext(i), config.name, dir, processed, attempts, remaining);
      i := i + 1;
    }
    assert events[..i] == events;
  }

  /** The total and the directory after the first `|configs|` leagues; league `k`
      is fetched as `fetch(k)` and its events' outcomes are `ext(k)`. */
  datatype Run = Run(total: nat, files: set<string>)

  function RunLeagues(configs: seq<LeagueConfig>, date: string, fetch: nat -> Option<Scoreboard>,
                      ext: nat -> nat -> Externals, files: set<string>): Run
  {
    if configs == [] then Run(0, files)
    else
      var n := |configs| - 1;
      var prev := RunLeagues(configs[..n], date, fetch, ext, files);
      var t := LeagueTally(configs[n], date, fetch(n), ext(n), prev.files);
      Run(prev.total + t.successes, t.files)
  }

  /** `main()`: the total over the configured leagues. */
  method RunAllLeagues(date: string, fetch: nat -> Option<Scoreboard>, ext: nat -> nat -> Externals,
                       files: set<string>)
    returns (total: nat, remaining: set<string>)
    ensures Run(total, remaining) == RunLeagues(LeagueConfigs, date, fetch, ext, files)
  {
    total, remaining := 0, files;
    var k := 0;
    while k < |LeagueConfigs|
      invariant 0 <= k <= |LeagueConfigs|
      invariant RunLeagues(LeagueConfigs[..k], date, fetch, ext, files) == Run(total, remaining)
    {
      assert LeagueConfigs[..k + 1][..k] == LeagueConfigs[..k];
      var processed;
      processed, remaining := ProcessLeague(LeagueConfigs[k], date, fetch(k), ext(k), remaining);
      total := total + processed;
      k := k + 1;
    }
    assert LeagueConfigs[..k] == LeagueConfigs;
  }

  /** The graphics a league yields, judged from its fetch result and outcomes. */
  function LeagueSucceeding(fetched: Option<Scoreboard>, ext: nat -> Externals): nat
  {
    if fetched.None? || fetched.value.events.None? then 0
    else CountSucceeding(fetched.value.events.value, ext)
  }

  function TotalSucceeding(configs: seq<LeagueConfig>, fetch: nat -> Option<Scoreboard>,
                           ext: nat -> nat -> Externals): nat
  {
    if configs == [] then 0
    else
      var n := |configs| - 1;
      TotalSucceeding(configs[..n], fetch, ext) + LeagueSucceeding(fetch(n), ext(n))
  }

  /** The reported total is the number of games across all leagues whose graphic
      was produced, whatever the directories held. */
  lemma {:induction false} TotalCountsGraphics(configs: seq<LeagueConfig>, date: string,
                                              fetch: nat -> Option<Scoreboard>,
                                              ext: nat -> nat -> Externals, files: set<string>)
    ensures RunLeagues(configs, date, fetch, ext, files).total == TotalSucceeding(configs, fetch, ext)
    decreases |configs|
  {
    if configs != [] {
      var n := |configs| - 1;
      var prev := RunLeagues(configs[..n], date, fetch, ext, files);
      TotalCountsGraphics(configs[..n], date, fetch, ext, files);
      var fetched := fetch(n);
      if fetched.Some? && fetched.value.events.Some? {
        CounterCountsGraphics(fetched.value.events.value, configs[n].name,
                              LeagueDir(date, configs[n]), ext(n), prev.files);
      }
    }
  }

  /** Each configured league's lower-cased name is its directory name, and it
      is a name whose graphics are never taken for temporary files. */
  lemma ConfiguredLeagues()
    ensures forall c :: c in LeagueConfigs ==> Lower(c.name) == c.league && SafeLeague(c.league)
  {
    LowerOfThree("NBA");
    LowerOfThree("NFL");
    LowerOfThree("NHL");
    LowerOfThree("MLB");
  }

  /** A three-letter name is lower-cased letter by letter. */
  lemma LowerOfThree(s: string)
    requires |s| == 3
    ensures Lower(s) == [LowerChar(s[0]), LowerChar(s[1]), LowerChar(s[2])]
  {
    LowerEachChar(s);
  }
}
