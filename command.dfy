/** The argument vector of the final ImageMagick `convert` call, and the font
    fallback that overwrites one of its elements in place. */
module Command {

  const ImageSize := "500x500"
  const LogoSize := "200x200"
  const PreferredFont := "Noto-Sans-Light"
  const FallbackFont := "sans-serif"

  /** The element the fallback writes: `command[13]`. */
  const PatchedIndex := 13

  /** Where the template holds the `-font` value. */
  const FontValueIndex := 35

  const CommandLength := 44

  /** The positions that depend on the game; all other elements are constants. */
  const GameSlots: set<int> := {3, 5, 17, 25, 42, 43}

  /** The canvas split diagonally into the two team colours (list elements 0-7). */
  function Canvas(awayColor: string, homeColor: string): (c: seq<string>)
    ensures |c| == 8
  {
    ["convert", "-size", ImageSize, "xc:" + awayColor, "-fill", homeColor, "-draw", "polygon 0,500 500,0 500,500"]
  }

  /** The white diagonal dividing line (elements 8-15). */
  function Divider(): (c: seq<string>)
    ensures |c| == 8
  {
    ["-strokewidth", "4", "-stroke", "white", "-fill", "none", "-draw", "line 5,495 495,5"]
  }

  /** One glow logo, resized and placed (elements 16-23 and 24-31). */
  function Overlay(glow: string, geometry: string): (c: seq<string>)
    ensures |c| == 8
  {
    ["(", glow, "-resize", LogoSize, ")", "-geometry", geometry, "-composite"]
  }

  /** The time text at the top (elements 32-42). */
  function Annotation(timeLabel: string): (c: seq<string>)
    ensures |c| == 11
  {
    ["-pointsize", "48", "-font", PreferredFont, "-fill", "white", "-gravity", "North", "-annotate", "+0+20", timeLabel]
  }

  /** The list literal of `generate_image`, before any fallback. */
  function CommandTemplate(awayColor: string, homeColor: string, awayGlow: string, homeGlow: string,
                           timeLabel: string, output: string): (c: seq<string>)
    ensures |c| == CommandLength
  {
    Canvas(awayColor, homeColor) + Divider() + Overlay(awayGlow, "+25+90") + Overlay(homeGlow, "+275+210")
      + Annotation(timeLabel) + [output]
  }

  /** The vector handed to `convert`: the template, with `command[13]` replaced
      when the font probe fails. */
  function CommandSent(awayColor: string, homeColor: string, awayGlow: string, homeGlow: string,
                       timeLabel: string, output: string, fontInstalled: bool): seq<string>
  {
    var t := CommandTemplate(awayColor, homeColor, awayGlow, homeGlow, timeLabel, output);
    if fontInstalled then t else t[PatchedIndex := FallbackFont]
  }

  /** The fallback as it was evidently meant: replace the `-font` value. */
  function IntendedCommand(awayColor: string, homeColor: string, awayGlow: string, homeGlow: string,
                           timeLabel: string, output: string, fontInstalled: bool): seq<string>
  {
    var t := CommandTemplate(awayColor, homeColor, awayGlow, homeGlow, timeLabel, output);
    if fontInstalled then t else t[FontValueIndex := FallbackFont]
  }

  /** The game-dependent elements of the template: the two colours, the two glow
      logos, the time label and the output path. */
  lemma TemplateSlots(awayColor: string, homeColor: string, awayGlow: string, homeGlow: string,
                      timeLabel: string, output: string)
    ensures var c := CommandTemplate(awayColor, homeColor, awayGlow, homeGlow, timeLabel, output);
      && c[3] == "xc:" + awayColor && c[2] == ImageSize
      && c[4] == "-fill" && c[5] == homeColor
      && c[16] == "(" && c[17] == awayGlow && c[24] == "(" && c[25] == homeGlow
      && c[40] == "-annotate" && c[42] == timeLabel
      && c[43] == output
  {
  }

  /** Every other element is the same for every game. */
  lemma TemplateIsFixedElsewhere(a1: string, h1: string, ag1: string, hg1: string, l1: string, o1: string,
                                 a2: string, h2: string, ag2: string, hg2: string, l2: string, o2: string)
    ensures var c1, c2 := CommandTemplate(a1, h1, ag1, hg1, l1, o1), CommandTemplate(a2, h2, ag2, hg2, l2, o2);
      forall i :: 0 <= i < CommandLength && i !in GameSlots ==> c1[i] == c2[i]
  {
  }

  /** `command[13]` is the `none` fill of the divider line, and the font name is
      at index 35. */
  lemma TemplateFontAndFill(awayColor: string, homeColor: string, awayGlow: string, homeGlow: string,
                            timeLabel: string, output: string)
    ensures var c := CommandTemplate(awayColor, homeColor, awayGlow, homeGlow, timeLabel, output);
      && c[PatchedIndex - 1] == "-fill" && c[PatchedIndex] == "none" && c[PatchedIndex + 1] == "-draw"
      && c[FontValueIndex - 1] == "-font" && c[FontValueIndex] == PreferredFont
  {
  }

  /** As written, the fallback leaves the font at Noto-Sans-Light and sets the
      divider line's fill to "sans-serif"; nothing else changes. */
  lemma FallbackMissesFont(awayColor: string, homeColor: string, awayGlow: string, homeGlow: string,
                           timeLabel: string, output: string)
    ensures var t := CommandTemplate(awayColor, homeColor, awayGlow, homeGlow, timeLabel, output);
      var c := CommandSent(awayColor, homeColor, awayGlow, homeGlow, timeLabel, output, false);
      && |c| == CommandLength
      && c[FontValueIndex - 1] == "-font" && c[FontValueIndex] == PreferredFont
      && c[PatchedIndex - 1] == "-fill" && c[PatchedIndex] == FallbackFont && t[PatchedIndex] == "none"
      && (forall i :: 0 <= i < CommandLength && i != PatchedIndex ==> c[i] == t[i])
  {
    TemplateFontAndFill(awayColor, homeColor, awayGlow, homeGlow, timeLabel, output);
  }

  /** The intended fallback names the generic font after `-font` and leaves the
      divider's fill alone; nothing else changes. */
  lemma IntendedFallbackSetsFont(awayColor: string, homeColor: string, awayGlow: string, homeGlow: string,
                                 timeLabel: string, output: string, fontInstalled: bool)
    ensures var t := CommandTemplate(awayColor, homeColor, awayGlow, homeGlow, timeLabel, output);
      var c := IntendedCommand(awayColor, homeColor, awayGlow, homeGlow, timeLabel, output, fontInstalled);
      && |c| == CommandLength
      && c[FontValueIndex - 1] == "-font"
      && c[FontValueIndex] == (if fontInstalled then PreferredFont else FallbackFont)
      && c[PatchedIndex] == "none"
      && (forall i :: 0 <= i < CommandLength && i != FontValueIndex ==> c[i] == t[i])
  {
    TemplateFontAndFill(awayColor, homeColor, awayGlow, homeGlow, timeLabel, output);
  }

  /** `command[at] = 'sans-serif'` on the list, in place. */
  method ApplyFontFallback(command: array<string>, at: nat)
    requires at < command.Length
    modifies command
    ensures command[..] == old(command[..])[at := FallbackFont]
  {
    command[at] := FallbackFont;
  }

  /** Builds the list, probes the font and, when the probe fails, performs the
      write of line 235 at `command[13]`: the font stays Noto-Sans-Light and the
      divider's fill becomes "sans-serif". */
  method BuildCommand(awayColor: string, homeColor: string, awayGlow: string, homeGlow: string,
                      timeLabel: string, output: string, fontInstalled: bool) returns (command: seq<string>)
    ensures command == CommandSent(awayColor, homeColor, awayGlow, homeGlow, timeLabel, output, fontInstalled)
    ensures |command| == CommandLength && command[FontValueIndex] == PreferredFont
    ensures command[PatchedIndex] == (if fontInstalled then "none" else FallbackFont)
  {
    var t := CommandTemplate(awayColor, homeColor, awayGlow, homeGlow, timeLabel, output);
    var list := new string[|t|](i requires 0 <= i < |t| => t[i]);
    assert list[..] == t;
    if !fontInstalled {
      ApplyFontFallback(list, PatchedIndex);
    }
    command := list[..];
  }
}
