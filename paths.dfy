/** File names of one game: the graphic `{league}_{away}_vs_{home}.png` and the
    four temporary logo files, each joined to the league's output directory. */
module Paths {

  /** `os.path.join(dir, name)` on POSIX. */
  function Join(dir: string, name: string): string
  {
    if |name| > 0 && name[0] == '/' then name
    else if dir == [] || dir[|dir| - 1] == '/' then dir + name
    else dir + "/" + name
  }

  function GameId(away: string, home: string): string
  {
    away + "_vs_" + home
  }

  function OutputName(league: string, away: string, home: string): string
  {
    league + "_" + GameId(away, home) + ".png"
  }

  function TempLogoName(abbrev: string): string
  {
    "temp_" + abbrev + "_logo.png"
  }

  function TempGlowName(abbrev: string): string
  {
    "temp_" + abbrev + "_logo_glow.png"
  }

  function OutputFile(dir: string, league: string, away: string, home: string): string
  {
    Join(dir, OutputName(league, away, home))
  }

  function TempLogo(dir: string, abbrev: string): string
  {
    Join(dir, TempLogoName(abbrev))
  }

  function TempGlow(dir: string, abbrev: string): string
  {
    Join(dir, TempGlowName(abbrev))
  }

  /** The files the `finally` block removes, in its order. */
  function TempFiles(dir: string, away: string, home: string): (ts: seq<string>)
    ensures |ts| == 4
  {
    [TempLogo(dir, away), TempLogo(dir, home), TempGlow(dir, away), TempGlow(dir, home)]
  }

  /** Joining to one directory keeps relative names apart, and the name is the suffix. */
  lemma JoinInjective(dir: string, n1: string, n2: string)
    requires n1 != [] && n2 != [] && n1[0] != '/' && n2[0] != '/'
    ensures Join(dir, n1) == Join(dir, n2) <==> n1 == n2
  {
    var p := if dir == [] || dir[|dir| - 1] == '/' then dir else dir + "/";
    assert Join(dir, n1) == p + n1 && Join(dir, n2) == p + n2;
    if p + n1 == p + n2 {
      assert n1 == (p + n1)[|p|..] && n2 == (p + n2)[|p|..];
    }
  }

  /** In `x + [c] + r` with no `c` in `x`, the first `c` is at position |x|. */
  lemma FirstSeparator(x: string, c: char, r: string)
    requires c !in x
    ensures (x + [c] + r)[|x|] == c
    ensures forall k :: 0 <= k < |x| ==> (x + [c] + r)[k] != c
  {
    forall k | 0 <= k < |x| ensures (x + [c] + r)[k] != c {
      assert (x + [c] + r)[k] == x[k];
    }
  }

  /** Splitting at the first occurrence of a separator that neither prefix contains. */
  lemma SplitAtSeparator(x: string, y: string, c: char, r1: string, r2: string)
    requires c !in x && c !in y
    requires x + [c] + r1 == y + [c] + r2
    ensures x == y && r1 == r2
  {
    var s := x + [c] + r1;
    FirstSeparator(x, c, r1);
    FirstSeparator(y, c, r2);
    assert |x| == |y|;
    assert x == s[..|x|] == y;
    assert r1 == s[|x| + 1..] == r2;
  }

  /** When the league name and the away abbreviation contain no '_', the file name
      determines the league and both teams: games never share a graphic. */
  lemma OutputNameInjective(l1: string, a1: string, h1: string, l2: string, a2: string, h2: string)
    requires '_' !in l1 && '_' !in l2 && '_' !in a1 && '_' !in a2
    requires OutputName(l1, a1, h1) == OutputName(l2, a2, h2)
    ensures l1 == l2 && a1 == a2 && h1 == h2
  {
    var r1, r2 := a1 + "_vs_" + h1 + ".png", a2 + "_vs_" + h2 + ".png";
    assert OutputName(l1, a1, h1) == l1 + ['_'] + r1;
    assert OutputName(l2, a2, h2) == l2 + ['_'] + r2;
    SplitAtSeparator(l1, l2, '_', r1, r2);
    var q1, q2 := "vs_" + h1 + ".png", "vs_" + h2 + ".png";
    assert r1 == a1 + ['_'] + q1 && r2 == a2 + ['_'] + q2;
    SplitAtSeparator(a1, a2, '_', q1, q2);
    assert h1 == q1[3..|q1| - 4] && h2 == q2[3..|q2| - 4];
  }

  /** With '_' inside abbreviations two different games can share a file name. */
  lemma OutputNameCollision()
    ensures OutputName("nba", "A_vs_B", "C") == OutputName("nba", "A", "B_vs_C")
  {
  }

  /** A logo file name is never a glow file name. */
  lemma LogoNameNotGlowName(a: string, b: string)
    ensures TempLogoName(a) != TempGlowName(b)
  {
    var x, y := TempLogoName(a), TempGlowName(b);
    assert x[|x| - 8] == 'l' && y[|y| - 8] == 'g';
  }

  /** Two logo (or two glow) file names coincide exactly when the abbreviations do. */
  lemma TempNamesInjective(a: string, b: string)
    ensures TempLogoName(a) == TempLogoName(b) <==> a == b
    ensures TempGlowName(a) == TempGlowName(b) <==> a == b
  {
    var x, y := TempLogoName(a), TempLogoName(b);
    if x == y {
      assert a == x[5..|x| - 9] && b == y[5..|y| - 9];
    }
    var u, v := TempGlowName(a), TempGlowName(b);
    if u == v {
      assert a == u[5..|u| - 14] && b == v[5..|v| - 14];
    }
  }

  /** The four temporary paths are distinct when the abbreviations differ; when
      they are equal the logo paths, and the glow paths, coincide. */
  lemma TempFilesDistinct(dir: string, away: string, home: string)
    ensures TempLogo(dir, away) != TempGlow(dir, away) && TempLogo(dir, away) != TempGlow(dir, home)
    ensures TempLogo(dir, home) != TempGlow(dir, away) && TempLogo(dir, home) != TempGlow(dir, home)
    ensures TempLogo(dir, away) == TempLogo(dir, home) <==> away == home
    ensures TempGlow(dir, away) == TempGlow(dir, home) <==> away == home
  {
    LogoNameNotGlowName(away, away);
    LogoNameNotGlowName(away, home);
    LogoNameNotGlowName(home, away);
    LogoNameNotGlowName(home, home);
    TempNamesInjective(away, home);
    JoinInjective(dir, TempLogoName(away), TempGlowName(away));
    JoinInjective(dir, TempLogoName(away), TempGlowName(home));
    JoinInjective(dir, TempLogoName(home), TempGlowName(away));
    JoinInjective(dir, TempLogoName(home), TempGlowName(home));
    JoinInjective(dir, TempLogoName(away), TempLogoName(home));
    JoinInjective(dir, TempGlowName(away), TempGlowName(home));
  }

  /** A graphic is never one of the temporary files (so the clean-up never deletes
      it), for any league name without '_' or '/' other than "temp". */
  lemma OutputNotTemp(dir: string, league: string, away: string, home: string, x: string)
    requires '_' !in league && '/' !in league && league != "temp"
    ensures OutputFile(dir, league, away, home) != TempLogo(dir, x)
    ensures OutputFile(dir, league, away, home) != TempGlow(dir, x)
  {
    var out := OutputName(league, away, home);
    var rest := GameId(away, home) + ".png";
    assert out == league + ['_'] + rest;
    assert out[0] != '/' by {
      if league == [] { assert out[0] == '_'; } else { assert out[0] == league[0]; }
    }
    var logo, glow := TempLogoName(x), TempGlowName(x);
    assert logo == "temp" + ['_'] + (x + "_logo.png");
    assert glow == "temp" + ['_'] + (x + "_logo_glow.png");
    JoinInjective(dir, out, logo);
    JoinInjective(dir, out, glow);
    if out == logo {
      SplitAtSeparator(league, "temp", '_', rest, x + "_logo.png");
    }
    if out == glow {
      SplitAtSeparator(league, "temp", '_', rest, x + "_logo_glow.png");
    }
  }
}
