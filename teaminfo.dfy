/** `get_team_info`: the abbreviation, the two colours and the logo URL of a
    team, read from the team object of the scoreboard JSON with fallbacks. */
module TeamInfo {
  import opened Wrappers

  /** One element of a team's `logos` list; an absent `rel` reads as the empty list. */
  datatype LogoEntry = LogoEntry(rel: seq<string>, href: Option<string>)

  /** The keys of a team object that the program reads (None: the key is absent);
      `otherKeys` records whether the object has any key besides these, which
      decides its truthiness when all of these are absent. */
  datatype TeamData = TeamData(
    abbreviation: Option<string>,
    color: Option<string>,
    altColor: Option<string>,
    logos: Option<seq<LogoEntry>>,
    logo: Option<string>,
    otherKeys: bool)
  {
    /** Python's truthiness of the object: it is not the empty dict. */
    predicate NonEmpty()
    {
      abbreviation.Some? || color.Some? || altColor.Some? || logos.Some? || logo.Some? || otherKeys
    }
  }

  /** The dictionary `get_team_info` returns. */
  datatype Team = Team(abbrev: string, color: string, altColor: string, logoUrl: Option<string>)

  const DefaultAbbrev := "TBD"
  const DefaultColor := "CCCCCC"
  const DefaultAltColor := "000000"
  const DefaultRel := "default"

  /** Python's truthiness of an optional string: present and not empty. */
  predicate Truthy(s: Option<string>)
  {
    s.Some? && s.value != ""
  }

  /** `s.lstrip(c)`: `s` without its leading run of `c`. */
  function LStrip(s: string, c: char): string
  {
    if s != [] && s[0] == c then LStrip(s[1..], c) else s
  }

  /** The result is a suffix of `s` that does not start with `c`, and all that
      was removed is `c`s. */
  lemma {:induction false} LStripRemovesLeadingRun(s: string, c: char)
    ensures var r := LStrip(s, c);
      && |r| <= |s| && r == s[|s| - |r|..]
      && (r == [] || r[0] != c)
      && forall i :: 0 <= i < |s| - |r| ==> s[i] == c
  {
    if s != [] && s[0] == c {
      LStripRemovesLeadingRun(s[1..], c);
      var r := LStrip(s, c);
      assert s[1..][|s| - 1 - |r|..] == s[|s| - |r|..];
      forall i | 0 <= i < |s| - |r| ensures s[i] == c {
        if i > 0 {
          assert s[i] == s[1..][i - 1];
        }
      }
    }
  }

  /** `"#" + team_data.get(key, default).lstrip('#')`: one '#' followed by the
      value (or the default) without its leading '#'s. */
  function NormalizeColor(raw: Option<string>, default: string): (r: string)
    ensures |r| >= 1 && r[0] == '#'
    ensures var s := raw.GetOr(default);
      && |r| - 1 <= |s| && r[1..] == s[|s| - (|r| - 1)..]
      && (|r| == 1 || r[1] != '#')
      && forall i :: 0 <= i < |s| - (|r| - 1) ==> s[i] == '#'
  {
    LStripRemovesLeadingRun(raw.GetOr(default), '#');
    "#" + LStrip(raw.GetOr(default), '#')
  }

  /** The index of the first logo whose `rel` contains "default", if any
      (the `next(...)` search). */
  function FirstDefault(logos: seq<LogoEntry>): (r: Option<nat>)
    ensures r.Some? ==> r.value < |logos|
  {
    if logos == [] then None
    else if DefaultRel in logos[0].rel then Some(0)
    else
      match FirstDefault(logos[1..])
      case None => None
      case Some(i) => Some(i + 1)
  }

  /** The search finds the first logo whose `rel` holds "default", and finds
      nothing exactly when no logo has it. */
  lemma {:induction false} FirstDefaultFindsFirst(logos: seq<LogoEntry>)
    ensures var r := FirstDefault(logos);
      && (r.Some? ==> DefaultRel in logos[r.value].rel)
      && (r.Some? ==> forall j :: 0 <= j < r.value ==> DefaultRel !in logos[j].rel)
      && (r.None? ==> forall j :: 0 <= j < |logos| ==> DefaultRel !in logos[j].rel)
  {
    if logos != [] && DefaultRel !in logos[0].rel {
      FirstDefaultFindsFirst(logos[1..]);
      forall j | 1 <= j < |logos| ensures logos[j] == logos[1..][j - 1] {
      }
    }
  }

  /** The `href` of the logo that the list step picks (None when the list step
      does not apply or the chosen entry has no `href`). */
  function ListLogoUrl(logos: Option<seq<LogoEntry>>): Option<string>
  {
    if logos.Some? && |logos.value| > 0 then
      match FirstDefault(logos.value)
      case Some(i) => logos.value[i].href
      case None => logos.value[0].href
    else None
  }

  /** The logo URL: the list step when it gives a non-empty string, else the flat `logo` key. */
  function ResolveLogoUrl(t: TeamData): Option<string>
  {
    var fromList := ListLogoUrl(t.logos);
    if Truthy(fromList) then fromList else t.logo
  }

  /** `get_team_info(team_data)`. */
  function GetTeamInfo(t: TeamData): (r: Team)
    ensures r.abbrev == (if t.abbreviation.Some? then t.abbreviation.value else DefaultAbbrev)
    ensures |r.color| >= 1 && r.color[0] == '#' && |r.altColor| >= 1 && r.altColor[0] == '#'
  {
    Team(t.abbreviation.GetOr(DefaultAbbrev),
         NormalizeColor(t.color, DefaultColor),
         NormalizeColor(t.altColor, DefaultAltColor),
         ResolveLogoUrl(t))
  }

  /** A colour is '#' followed by the input with its leading '#'s removed,
      whether or not the API sent a '#'. */
  lemma ColorKeepsDigits(raw: string, default: string)
    ensures NormalizeColor(Some(raw), default) == NormalizeColor(Some("#" + raw), default)
    ensures (raw == [] || raw[0] != '#') ==> NormalizeColor(Some(raw), default) == "#" + raw
  {
    assert ("#" + raw)[1..] == raw;
  }

  /** Missing colours default to gray and black. */
  lemma DefaultColors(t: TeamData)
    ensures t.color.None? ==> GetTeamInfo(t).color == "#CCCCCC"
    ensures t.altColor.None? ==> GetTeamInfo(t).altColor == "#000000"
  {
    assert DefaultColor[0] != '#' && DefaultAltColor[0] != '#';
    assert LStrip(DefaultColor, '#') == DefaultColor;
    assert LStrip(DefaultAltColor, '#') == DefaultAltColor;
  }

  /** Normalising a normalised colour changes nothing. */
  lemma NormalizeColorIdempotent(raw: Option<string>, default: string, other: string)
    ensures NormalizeColor(Some(NormalizeColor(raw, default)), other) == NormalizeColor(raw, default)
  {
    var r := NormalizeColor(raw, default);
    var body := LStrip(raw.GetOr(default), '#');
    LStripRemovesLeadingRun(raw.GetOr(default), '#');
    assert r == "#" + body;
    ColorKeepsDigits(body, other);
  }

  /** The first entry tagged "default" wins over every other entry, when its `href` is a
      non-empty string. */
  lemma DefaultLogoPreferred(t: TeamData, i: nat)
    requires t.logos.Some? && i < |t.logos.value|
    requires DefaultRel in t.logos.value[i].rel
    requires forall j :: 0 <= j < i ==> DefaultRel !in t.logos.value[j].rel
    requires Truthy(t.logos.value[i].href)
    ensures ResolveLogoUrl(t) == t.logos.value[i].href
  {
    FirstDefaultFindsFirst(t.logos.value);
  }

  /** Without an entry tagged "default", the first entry's non-empty `href` is used. */
  lemma FirstLogoOtherwise(t: TeamData)
    requires t.logos.Some? && |t.logos.value| > 0
    requires forall j :: 0 <= j < |t.logos.value| ==> DefaultRel !in t.logos.value[j].rel
    requires Truthy(t.logos.value[0].href)
    ensures ResolveLogoUrl(t) == t.logos.value[0].href
  {
    FirstDefaultFindsFirst(t.logos.value);
    if FirstDefault(t.logos.value).Some? {
      assert false;
    }
  }

  /** Without a usable `logos` list, or when the chosen entry's `href` is absent
      or empty, the flat `logo` key decides (None when it too is absent). */
  lemma FlatLogoFallback(t: TeamData)
    requires t.logos.None? || t.logos.value == [] || !Truthy(ListLogoUrl(t.logos))
    ensures ResolveLogoUrl(t) == t.logo
  {
  }

  /** The URL is the list step's choice or the flat key, nothing else. */
  lemma LogoUrlSources(t: TeamData)
    ensures ResolveLogoUrl(t) == t.logo || (Truthy(ResolveLogoUrl(t)) && exists i :: 0 <= i < |t.logos.value| && ResolveLogoUrl(t) == t.logos.value[i].href)
  {
    if Truthy(ListLogoUrl(t.logos)) {
      var ls := t.logos.value;
      var i := if FirstDefault(ls).Some? then FirstDefault(ls).value else 0;
      assert ResolveLogoUrl(t) == ls[i].href;
    }
  }
}
