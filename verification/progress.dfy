/** The pure parts of the CLI progress indicator in
    `deploy_kit/subprocess_utils.py`: settings and their precedence, the env
    parsers, the frame sets, the overwritable progress line, and one wake-up of
    the idle indicator as a step function. Time is integer milliseconds. */
module Progress {
  import opened Wrappers
  import opened Text
  import opened Numerals
  import Split
  import Config

  type Env = map<string, string>

  // ---------------------------------------------------------------------
  // Settings
  // ---------------------------------------------------------------------

  /** The four progress settings: show, idle threshold, style, refresh interval. */
  datatype Settings = Settings(show: bool, idleMs: int, style: string, intervalMs: int)

  /** Module start-up values of the process-wide defaults. */
  const InitialDefaults: Settings := Settings(true, 2000, "braille", 120)

  /** A partial set of settings; `None` means "not given". */
  datatype Overrides = Overrides(show: Option<bool>, idleMs: Option<int>, style: Option<string>, intervalMs: Option<int>)

  const NoOverrides: Overrides := Overrides(None, None, None, None)

  /** `configure_cli_progress(...)`: replaces exactly the defaults whose
      argument is given and keeps the others. */
  function ConfigureCliProgress(d: Settings, u: Overrides): (r: Settings)
    ensures u.show.Some? ==> r.show == u.show.value
    ensures u.show.None? ==> r.show == d.show
    ensures u.idleMs.Some? ==> r.idleMs == u.idleMs.value
    ensures u.idleMs.None? ==> r.idleMs == d.idleMs
    ensures u.style.Some? ==> r.style == u.style.value
    ensures u.style.None? ==> r.style == d.style
    ensures u.intervalMs.Some? ==> r.intervalMs == u.intervalMs.value
    ensures u.intervalMs.None? ==> r.intervalMs == d.intervalMs
  {
    Settings(u.show.GetOr(d.show), u.idleMs.GetOr(d.idleMs), u.style.GetOr(d.style), u.intervalMs.GetOr(d.intervalMs))
  }

  /** The given fields of `hi`, falling back to those of `lo`. */
  function Layer(hi: Overrides, lo: Overrides): Overrides {
    Overrides(if hi.show.Some? then hi.show else lo.show,
              if hi.idleMs.Some? then hi.idleMs else lo.idleMs,
              if hi.style.Some? then hi.style else lo.style,
              if hi.intervalMs.Some? then hi.intervalMs else lo.intervalMs)
  }

  /** Configuring with nothing changes nothing, configuring twice with the same
      arguments is the same as once, and a later call wins over an earlier one. */
  lemma ConfigureLaws(d: Settings, u: Overrides, v: Overrides)
    ensures ConfigureCliProgress(d, NoOverrides) == d
    ensures ConfigureCliProgress(ConfigureCliProgress(d, u), u) == ConfigureCliProgress(d, u)
    ensures ConfigureCliProgress(ConfigureCliProgress(d, u), v) == ConfigureCliProgress(d, Layer(v, u))
  {
  }

  /** The settings `run_command` uses: the call's argument, else the
      environment's value, else the process-wide default, field by field. */
  function Resolve(explicit: Overrides, fromEnv: Overrides, defaults: Settings): (r: Settings)
    ensures r.show == (if explicit.show.Some? then explicit.show.value
                       else if fromEnv.show.Some? then fromEnv.show.value else defaults.show)
    ensures r.idleMs == (if explicit.idleMs.Some? then explicit.idleMs.value
                         else if fromEnv.idleMs.Some? then fromEnv.idleMs.value else defaults.idleMs)
    ensures r.style == (if explicit.style.Some? then explicit.style.value
                        else if fromEnv.style.Some? then fromEnv.style.value else defaults.style)
    ensures r.intervalMs == (if explicit.intervalMs.Some? then explicit.intervalMs.value
                             else if fromEnv.intervalMs.Some? then fromEnv.intervalMs.value else defaults.intervalMs)
  {
    Settings(
      explicit.show.GetOr(fromEnv.show.GetOr(defaults.show)),
      explicit.idleMs.GetOr(fromEnv.idleMs.GetOr(defaults.idleMs)),
      explicit.style.GetOr(fromEnv.style.GetOr(defaults.style)),
      explicit.intervalMs.GetOr(fromEnv.intervalMs.GetOr(defaults.intervalMs)))
  }

  /** The precedence is layering: resolving is configuring the defaults with
      the environment's values and then with the call's arguments. */
  lemma ResolveIsLayering(explicit: Overrides, fromEnv: Overrides, defaults: Settings)
    ensures Resolve(explicit, fromEnv, defaults)
         == ConfigureCliProgress(ConfigureCliProgress(defaults, fromEnv), explicit)
  {
  }

  // ---------------------------------------------------------------------
  // Environment parsers
  // ---------------------------------------------------------------------

  const EnvTrueWords: set<string> := {"1", "true", "yes", "y", "on"}

  /** `_parse_env_bool(name)`: `None` when unset; otherwise whether the
      stripped, lower-cased value is one of the true words. */
  function ParseEnvBool(env: Env, name: string): (r: Option<bool>)
    ensures r.None? <==> name !in env
    ensures r.Some? ==> (r.value <==> Lower(Strip(env[name])) in EnvTrueWords)
  {
    if name !in env then None else Some(Lower(Strip(env[name])) in EnvTrueWords)
  }

  /** `_parse_env_float(name)` with the number parser `parse` as a parameter:
      unset or blank values never reach the parser. */
  function ParseEnvMillis(env: Env, name: string, parse: string -> Option<int>): (r: Option<int>)
    ensures name !in env || Strip(env[name]) == "" ==> r.None?
    ensures name in env && Strip(env[name]) != "" ==> r == parse(env[name])
  {
    if name !in env || Strip(env[name]) == "" then None else parse(env[name])
  }

  /** `_progress_settings_from_env()`. */
  function SettingsFromEnv(env: Env, parse: string -> Option<int>): (o: Overrides)
    ensures o.show == ParseEnvBool(env, "CLI_SHOW_PROGRESS")
    ensures o.style.Some? <==> "CLI_PROGRESS_STYLE" in env
    ensures o.style.Some? ==> o.style.value == env["CLI_PROGRESS_STYLE"]
    ensures o.idleMs == (if "CLI_PROGRESS_IDLE_SECONDS" in env && Strip(env["CLI_PROGRESS_IDLE_SECONDS"]) != ""
                         then parse(env["CLI_PROGRESS_IDLE_SECONDS"]) else None)
    ensures o.intervalMs == (if "CLI_PROGRESS_INTERVAL_SECONDS" in env && Strip(env["CLI_PROGRESS_INTERVAL_SECONDS"]) != ""
                             then parse(env["CLI_PROGRESS_INTERVAL_SECONDS"]) else None)
  {
    Overrides(
      ParseEnvBool(env, "CLI_SHOW_PROGRESS"),
      ParseEnvMillis(env, "CLI_PROGRESS_IDLE_SECONDS", parse),
      if "CLI_PROGRESS_STYLE" in env then Some(env["CLI_PROGRESS_STYLE"]) else None,
      ParseEnvMillis(env, "CLI_PROGRESS_INTERVAL_SECONDS", parse))
  }

  /** `_get_bool` (the configuration toggles) and `_parse_env_bool` (the
      progress settings) read a set variable differently: the latter strips
      the value and also accepts "on". Whatever the former reads as true the
      latter does too, and they disagree exactly on the values that are true
      words only after stripping or that are "on". */
  lemma BoolParsersAgree(env: Env, name: string, default: bool)
    requires name in env
    ensures Config.GetBool(env, name, default) ==> ParseEnvBool(env, name) == Some(true)
    ensures ParseEnvBool(env, name).Some?
    ensures Config.GetBool(env, name, default) != ParseEnvBool(env, name).value
        <==> Lower(env[name]) !in Config.TrueWords && Lower(Strip(env[name])) in EnvTrueWords
  {
    var raw := env[name];
    if Lower(raw) in Config.TrueWords {
      assert IsStripped(Lower(raw));
      StripLower(raw);
    }
  }

  /** A variable set to "on" is true for the progress settings but false as
      a configuration toggle, whatever the toggle's default. */
  lemma OnDiffers(env: Env, name: string, default: bool)
    requires name in env && env[name] == "on"
    ensures !Config.GetBool(env, name, default)
    ensures ParseEnvBool(env, name) == Some(true)
  {
    assert Lower("on") == "on";
    assert Strip("on") == "on";
  }

  /** So is a variable set to " yes ": the toggle parser does not strip. */
  lemma PaddedYesDiffers(env: Env, name: string, default: bool)
    requires name in env && env[name] == " yes "
    ensures !Config.GetBool(env, name, default)
    ensures ParseEnvBool(env, name) == Some(true)
  {
    assert !Config.GetBool(env, name, default) by {
      LowerPaddedYes();
      assert Lower(env[name]) == " yes ";
    }
    assert Lower(Strip(env[name])) == "yes" by {
      LowerPaddedYes();
      StripPaddedYes();
    }
  }

  lemma LowerPaddedYes()
    ensures Lower(" yes ") == " yes " && Lower("yes") == "yes"
  {
  }

  lemma StripPaddedYes()
    ensures Strip(" yes ") == "yes"
  {
    assert " " + ['y'] + "es " == " yes ";
    LStripAllSpace(" ");
    TrailingBlank();
    StripAround(" ", 'y', "es ");
  }

  lemma TrailingBlank()
    ensures RStrip("es ") == "es"
  {
    assert "es " == "es" + " ";
    RStripAppend("es", " ");
    assert RStrip(" ") == [];
    assert RStrip("es") == "es";
  }

  // ---------------------------------------------------------------------
  // Frames
  // ---------------------------------------------------------------------

  const BrailleFrames: seq<string> :=
    ["\U{280B}", "\U{2819}", "\U{2839}", "\U{2838}", "\U{283C}",
     "\U{2834}", "\U{2826}", "\U{2827}", "\U{2807}", "\U{280F}"]

  const AsciiFrames: seq<string> := ["|", "/", "-", "\\"]

  /** `_select_frames(style)`: the ASCII frames exactly for "ascii" after
      stripping and lower-casing, the braille frames for anything else. */
  function SelectFrames(style: string): (frames: seq<string>)
    ensures frames == AsciiFrames <==> Lower(Strip(style)) == "ascii"
    ensures frames == BrailleFrames <==> Lower(Strip(style)) != "ascii"
  {
    if Lower(Strip(style)) == "ascii" then AsciiFrames else BrailleFrames
  }

  /** The style is read after stripping and lower-casing: padding and ASCII
      case never change the frames. */
  lemma SelectFramesNormalises(style: string)
    ensures SelectFrames(Strip(style)) == SelectFrames(style)
    ensures SelectFrames(Lower(style)) == SelectFrames(style)
  {
    assert Strip(Strip(style)) == Strip(style);
    SameStyleKey(Strip(style), style);
    SelectFramesLower(style);
    SameStyleKey(Lower(style), style);
  }

  lemma SameStyleKey(a: string, b: string)
    requires Lower(Strip(a)) == Lower(Strip(b))
    ensures SelectFrames(a) == SelectFrames(b)
  {
  }

  lemma SelectFramesLower(style: string)
    ensures Lower(Strip(Lower(style))) == Lower(Strip(style))
  {
    StripLower(style);
    LowerTwice(Strip(style));
  }

  /** Every frame is a single character, and the two sets share none. */
  lemma FrameSets()
    ensures |BrailleFrames| == 10 && |AsciiFrames| == 4
    ensures forall f :: f in BrailleFrames + AsciiFrames ==> |f| == 1
    ensures forall f :: f in BrailleFrames ==> f !in AsciiFrames
  {
  }

  // ---------------------------------------------------------------------
  // Elapsed time
  // ---------------------------------------------------------------------

  /** `_format_elapsed(seconds)` for an elapsed time of `tenths` tenths of a
      second: "<s>.<t>s" under a minute, "<m>m<ss>s" from a minute on, with
      whole minutes and the whole seconds left over. */
  function FormatElapsed(tenths: nat): (r: string)
    ensures |r| >= 4 && r[|r| - 1] == 's'
    ensures ('m' in r <==> tenths >= 600) && ('.' in r <==> tenths < 600)
  {
    var seconds := tenths / 10;
    if tenths < 600 then
      NatToString(seconds) + "." + [DigitChar(tenths % 10)] + "s"
    else
      NatToString(seconds / 60) + "m" + Pad2(seconds % 60) + "s"
  }

  /** Reads "<m>m<ss>" as tenths of a second. */
  function ParseMinutes(body: string): Option<nat>
    requires 'm' in body
  {
    var i := Split.IndexOf(body, 'm');
    var m := ParseNat(body[..i]);
    var sec := ParseNat(body[i + 1..]);
    if m.Some? && sec.Some? && |body[i + 1..]| == 2 && sec.value < 60
    then Some((m.value * 60 + sec.value) * 10) else None
  }

  /** Reads "<s>.<t>" as tenths of a second. */
  function ParseSeconds(body: string): Option<nat>
    requires '.' in body
  {
    var i := Split.IndexOf(body, '.');
    var sec := ParseNat(body[..i]);
    var t := ParseNat(body[i + 1..]);
    if sec.Some? && t.Some? && |body[i + 1..]| == 1 then Some(sec.value * 10 + t.value) else None
  }

  /** Reads a text in either form back as tenths of a second. */
  function ParseElapsed(text: string): Option<nat> {
    if |text| == 0 || text[|text| - 1] != 's' then None
    else
      var body := text[..|text| - 1];
      if 'm' in body then ParseMinutes(body)
      else if '.' in body then ParseSeconds(body)
      else None
  }

  lemma IndexAfterDigits(digits: string, c: char, rest: string)
    requires AllDigits(digits) && !IsDigit(c)
    ensures c in digits + [c] + rest
    ensures Split.IndexOf(digits + [c] + rest, c) == |digits|
  {
    var s := digits + [c] + rest;
    assert s[|digits|] == c;
    assert s[..|digits|] == digits;
  }

  /** The trailing "s" is dropped and the body dispatched on its separator. */
  lemma ElapsedBody(body: string)
    ensures ParseElapsed(body + "s")
         == if 'm' in body then ParseMinutes(body) else if '.' in body then ParseSeconds(body) else None
  {
    assert (body + "s")[..|body|] == body;
  }

  lemma NoMinuteMark(q: string, d: string)
    requires AllDigits(q) && AllDigits(d)
    ensures 'm' !in q + "." + d
  {
    var body := q + "." + d;
    assert forall k :: 0 <= k < |body| ==> IsDigit(body[k]) || body[k] == '.';
  }

  lemma SecondsBody(q: string, d: string)
    requires |q| >= 1 && AllDigits(q) && |d| == 1 && AllDigits(d)
    ensures '.' in q + "." + d
    ensures ParseSeconds(q + "." + d) == Some(DigitsValue(q) * 10 + DigitsValue(d))
  {
    var body := q + "." + d;
    IndexAfterDigits(q, '.', d);
    var i := Split.IndexOf(body, '.');
    assert body[..i] == q;
    assert body[i + 1..] == d;
    assert ParseNat(q) == Some(DigitsValue(q));
    assert ParseNat(d) == Some(DigitsValue(d));
  }

  lemma ParseSecondsForm(q: string, d: string)
    requires |q| >= 1 && AllDigits(q) && |d| == 1 && AllDigits(d)
    ensures ParseElapsed(q + "." + d + "s") == Some(DigitsValue(q) * 10 + DigitsValue(d))
  {
    ElapsedBody(q + "." + d);
    NoMinuteMark(q, d);
    SecondsBody(q, d);
  }

  lemma MinutesBody(m: string, ss: string)
    requires |m| >= 1 && AllDigits(m) && |ss| == 2 && AllDigits(ss) && DigitsValue(ss) < 60
    ensures 'm' in m + "m" + ss
    ensures ParseMinutes(m + "m" + ss) == Some((DigitsValue(m) * 60 + DigitsValue(ss)) * 10)
  {
    var body := m + "m" + ss;
    IndexAfterDigits(m, 'm', ss);
    var i := Split.IndexOf(body, 'm');
    assert body[..i] == m;
    assert body[i + 1..] == ss;
    assert ParseNat(m) == Some(DigitsValue(m));
    assert ParseNat(ss) == Some(DigitsValue(ss));
  }

  lemma ParseMinutesForm(m: string, ss: string)
    requires |m| >= 1 && AllDigits(m) && |ss| == 2 && AllDigits(ss) && DigitsValue(ss) < 60
    ensures ParseElapsed(m + "m" + ss + "s") == Some((DigitsValue(m) * 60 + DigitsValue(ss)) * 10)
  {
    ElapsedBody(m + "m" + ss);
    MinutesBody(m, ss);
  }

  /** Formatting then parsing gives back the elapsed time: exactly under a
      minute, and cut to whole seconds from a minute on. */
  lemma ElapsedRoundTrip(tenths: nat)
    ensures ParseElapsed(FormatElapsed(tenths))
         == Some(if tenths < 600 then tenths else tenths / 10 * 10)
  {
    if tenths < 600 {
      ParseNatToString(tenths / 10);
      ParseSecondsForm(NatToString(tenths / 10), [DigitChar(tenths % 10)]);
    } else {
      var t := tenths / 10;
      ParseNatToString(t / 60);
      ParseMinutesForm(NatToString(t / 60), Pad2(t % 60));
      assert (t / 60 * 60 + t % 60) * 10 == t * 10;
    }
  }

  // ---------------------------------------------------------------------
  // Progress line
  // ---------------------------------------------------------------------

  /** `_ProgressLine`: the message, the frames of its style, and `_last_len`,
      the longest text rendered so far. */
  datatype Line = Line(message: string, frames: seq<string>, lastLen: nat)

  predicate ValidLine(l: Line) {
    |l.frames| > 0
  }

  function NewLine(message: string, style: string): (l: Line)
    ensures ValidLine(l) && l.lastLen == 0 && l.message == message
    ensures l.frames == SelectFrames(style)
  {
    Line(message, SelectFrames(style), 0)
  }

  /** The text of one frame: glyph, message and elapsed time. */
  function LineText(l: Line, idx: nat, elapsed: string): string
    requires ValidLine(l)
  {
    l.frames[idx % |l.frames|] + " " + l.message + "  " + elapsed
  }

  function Spaces(n: nat): (s: string)
    ensures |s| == n && forall i :: 0 <= i < n ==> s[i] == ' '
  {
    if n == 0 then "" else Spaces(n - 1) + " "
  }

  /** `render(frame_idx, elapsed)`: the new line state and what it writes. */
  function Render(l: Line, idx: nat, elapsed: string): (r: (Line, string))
    requires ValidLine(l)
    ensures ValidLine(r.0) && r.0.message == l.message && r.0.frames == l.frames
    ensures r.1 == "\r" + LineText(l, idx, elapsed)
    ensures r.0.lastLen >= l.lastLen && r.0.lastLen >= |LineText(l, idx, elapsed)|
    ensures r.0.lastLen == l.lastLen || r.0.lastLen == |LineText(l, idx, elapsed)|
  {
    var text := LineText(l, idx, elapsed);
    (l.(lastLen := Max(l.lastLen, |text|)), "\r" + text)
  }

  /** `clear()`: nothing when nothing was ever rendered, else a carriage
      return, `_last_len` blanks and a carriage return. */
  function ClearText(l: Line): (out: string)
    ensures l.lastLen == 0 ==> out == ""
    ensures l.lastLen > 0 ==> |out| == l.lastLen + 2 && out[0] == '\r' && out[|out| - 1] == '\r'
    ensures l.lastLen > 0 ==> forall i :: 0 < i < |out| - 1 ==> out[i] == ' '
  {
    if l.lastLen == 0 then "" else "\r" + Spaces(l.lastLen) + "\r"
  }

  /** A render request of the indicator: frame index and formatted elapsed time. */
  datatype Frame = Frame(idx: nat, elapsed: string)

  /** Rendering a sequence of frames in turn; the concatenated output. */
  function RenderAll(l: Line, frames: seq<Frame>): (r: (Line, string))
    requires ValidLine(l)
    ensures ValidLine(r.0) && r.0.frames == l.frames && r.0.message == l.message
    decreases |frames|
  {
    if frames == [] then (l, "")
    else
      var first := Render(l, frames[0].idx, frames[0].elapsed);
      var rest := RenderAll(first.0, frames[1..]);
      (rest.0, first.1 + rest.1)
  }

  /** `_last_len` is a high-water mark: it never decreases, it covers every text
      rendered, and it is either where it started or one of those lengths. */
  lemma {:induction false} HighWaterMark(l: Line, frames: seq<Frame>)
    requires ValidLine(l)
    ensures RenderAll(l, frames).0.lastLen >= l.lastLen
    ensures forall k :: 0 <= k < |frames| ==>
      RenderAll(l, frames).0.lastLen >= |LineText(l, frames[k].idx, frames[k].elapsed)|
    ensures RenderAll(l, frames).0.lastLen == l.lastLen
         || exists k :: 0 <= k < |frames| && RenderAll(l, frames).0.lastLen == |LineText(l, frames[k].idx, frames[k].elapsed)|
    decreases |frames|
  {
    if frames != [] {
      var first := Render(l, frames[0].idx, frames[0].elapsed);
      HighWaterMark(first.0, frames[1..]);
      forall k | 1 <= k < |frames|
        ensures LineText(first.0, frames[k].idx, frames[k].elapsed) == LineText(l, frames[k].idx, frames[k].elapsed)
      {
      }
      var final := RenderAll(l, frames).0.lastLen;
      if final != first.0.lastLen {
        var k :| 0 <= k < |frames[1..]| && final == |LineText(first.0, frames[1..][k].idx, frames[1..][k].elapsed)|;
        assert frames[1..][k] == frames[k + 1];
      }
    }
  }

  // ---------------------------------------------------------------------
  // Idle indicator
  // ---------------------------------------------------------------------

  const MinSleepMs: int := 20

  /** `_IdleProgressIndicator` after `start`: its line, the clamped interval and
      idle threshold, whether a frame is on screen, the next frame index, and
      the start time. */
  datatype Indicator = Indicator(line: Line, intervalMs: int, idleMs: int, shown: bool, idx: nat, startMs: int)

  predicate ValidIndicator(ind: Indicator) {
    && ValidLine(ind.line)
    && ind.intervalMs >= MinSleepMs
    && ind.idleMs >= 0
    && (ind.shown ==> ind.line.lastLen > 0)
  }

  /** Construction and `start`: the interval is at least 20 ms and the idle
      threshold at least 0; nothing is shown and the frame index starts at 0. */
  function StartIndicator(message: string, style: string, intervalMs: int, idleMs: int, startMs: int): (ind: Indicator)
    ensures ValidIndicator(ind) && !ind.shown && ind.idx == 0
    ensures ind.intervalMs == (if intervalMs < MinSleepMs then MinSleepMs else intervalMs)
    ensures ind.idleMs == (if idleMs < 0 then 0 else idleMs)
    ensures ind.line.frames == SelectFrames(style) && ind.line.lastLen == 0
  {
    Indicator(NewLine(message, style),
              if intervalMs < MinSleepMs then MinSleepMs else intervalMs,
              if idleMs < 0 then 0 else idleMs,
              false, 0, startMs)
  }

  /** The outcome of one wake-up: the new state, what it wrote to the error
      stream, and how long it then sleeps. */
  datatype Step = Step(ind: Indicator, out: string, sleepMs: int)

  function Min(a: int, b: int): int { if a <= b then a else b }
  function Max(a: int, b: int): int { if a >= b then a else b }

  /** `_format_elapsed` on a millisecond reading of the time since start. The
      source formats seconds as a float: from a minute on it truncates to
      whole seconds, as here; under a minute it rounds to one decimal, which
      agrees with these truncated tenths when the reading is a whole number of
      tenths. */
  function ElapsedText(ms: int): string {
    FormatElapsed(if ms <= 0 then 0 else ms / 100)
  }

  /** With `_format_elapsed` as the formatter, a frame drawn at `nowMs` shows
      the time since start, and that text reads back as the elapsed tenths of
      a second (whole seconds from a minute on). */
  lemma TickDrawsElapsed(ind: Indicator, nowMs: int, lastActivityMs: int)
    requires ValidIndicator(ind) && nowMs - lastActivityMs >= ind.idleMs
    requires nowMs >= ind.startMs
    ensures var tenths := (nowMs - ind.startMs) / 100;
      && Tick(ind, nowMs, lastActivityMs, ElapsedText).out == "\r" + LineText(ind.line, ind.idx, FormatElapsed(tenths))
      && ParseElapsed(FormatElapsed(tenths)) == Some(if tenths < 600 then tenths else tenths / 10 * 10)
  {
    var tenths := (nowMs - ind.startMs) / 100;
    assert Tick(ind, nowMs, lastActivityMs, ElapsedText).out == "\r" + LineText(ind.line, ind.idx, FormatElapsed(tenths)) by {
      assert ElapsedText(nowMs - ind.startMs) == FormatElapsed(tenths);
    }
    ElapsedRoundTrip(tenths);
  }

  /** One pass of the indicator's loop at time `nowMs`, with the last output
      seen at `lastActivityMs`; `fmt` formats an elapsed time in ms. */
  function Tick(ind: Indicator, nowMs: int, lastActivityMs: int, fmt: int -> string): (s: Step)
    requires ValidIndicator(ind)
    ensures ValidIndicator(s.ind)
    ensures MinSleepMs <= s.sleepMs <= ind.intervalMs
    ensures s.ind.line.message == ind.line.message && s.ind.line.frames == ind.line.frames
    ensures s.ind.intervalMs == ind.intervalMs && s.ind.idleMs == ind.idleMs && s.ind.startMs == ind.startMs
    ensures nowMs - lastActivityMs < ind.idleMs ==>
      && !s.ind.shown && s.ind.idx == ind.idx
      && s.out == (if ind.shown then ClearText(ind.line) else "")
      && s.sleepMs == Min(ind.intervalMs, Max(ind.idleMs - (nowMs - lastActivityMs), MinSleepMs))
    ensures nowMs - lastActivityMs >= ind.idleMs ==>
      && s.ind.shown && s.ind.idx == ind.idx + 1
      && s.out == "\r" + LineText(ind.line, ind.idx, fmt(nowMs - ind.startMs))
      && s.sleepMs == ind.intervalMs
  {
    var idle := nowMs - lastActivityMs;
    if idle < ind.idleMs then
      var out := if ind.shown then ClearText(ind.line) else "";
      Step(ind.(shown := false), out, Min(ind.intervalMs, Max(ind.idleMs - idle, MinSleepMs)))
    else
      var r := Render(ind.line, ind.idx, fmt(nowMs - ind.startMs));
      Step(ind.(line := r.0, shown := true, idx := ind.idx + 1), r.1, ind.intervalMs)
  }

  /** `clear()` (and `stop()`, which clears after ending the loop): always
      hidden afterwards, and a hidden indicator writes nothing. */
  function ClearIndicator(ind: Indicator): (s: Step)
    requires ValidIndicator(ind)
    ensures ValidIndicator(s.ind) && !s.ind.shown
    ensures !ind.shown ==> s.out == ""
    ensures ind.shown ==> s.out == ClearText(ind.line) && |s.out| == ind.line.lastLen + 2
    ensures s.ind == ind.(shown := false)
  {
    Step(ind.(shown := false), if ind.shown then ClearText(ind.line) else "", 0)
  }

  /** A wake-up of the loop: the clock reading and the activity reading. */
  datatype Wake = Wake(nowMs: int, lastActivityMs: int)

  predicate IsIdle(ind: Indicator, w: Wake) {
    w.nowMs - w.lastActivityMs >= ind.idleMs
  }

  /** The indicator's loop over a finite run of wake-ups: the final state and
      everything it wrote to the error stream. */
  function RunTicks(ind: Indicator, wakes: seq<Wake>, fmt: int -> string): (r: (Indicator, string))
    requires ValidIndicator(ind)
    ensures ValidIndicator(r.0)
    ensures r.0.idleMs == ind.idleMs && r.0.intervalMs == ind.intervalMs && r.0.startMs == ind.startMs
    ensures r.0.line.message == ind.line.message && r.0.line.frames == ind.line.frames
    decreases |wakes|
  {
    if wakes == [] then (ind, "")
    else
      var s := Tick(ind, wakes[0].nowMs, wakes[0].lastActivityMs, fmt);
      var rest := RunTicks(s.ind, wakes[1..], fmt);
      (rest.0, s.out + rest.1)
  }

  /** The number of wake-ups at which a frame is drawn. */
  function CountIdle(idleMs: int, wakes: seq<Wake>): nat {
    if wakes == [] then 0
    else (if wakes[0].nowMs - wakes[0].lastActivityMs >= idleMs then 1 else 0) + CountIdle(idleMs, wakes[1..])
  }

  /** The frame index advances by exactly one per frame drawn, and the
      indicator ends shown exactly when the last wake-up drew a frame. */
  lemma {:induction false} FramesDrawn(ind: Indicator, wakes: seq<Wake>, fmt: int -> string)
    requires ValidIndicator(ind)
    ensures RunTicks(ind, wakes, fmt).0.idx == ind.idx + CountIdle(ind.idleMs, wakes)
    ensures wakes != [] ==> (RunTicks(ind, wakes, fmt).0.shown <==> IsIdle(ind, wakes[|wakes| - 1]))
    decreases |wakes|
  {
    if wakes != [] {
      var next := Tick(ind, wakes[0].nowMs, wakes[0].lastActivityMs, fmt).ind;
      FramesDrawn(next, wakes[1..], fmt);
      if |wakes| > 1 {
        assert wakes[1..][|wakes[1..]| - 1] == wakes[|wakes| - 1];
      }
    }
  }

  /** A wake-up past the idle threshold draws a frame: the loop then writes
      something and ends past the frame index it started from. */
  lemma {:induction false} IdleWakeDraws(ind: Indicator, wakes: seq<Wake>, fmt: int -> string, k: int)
    requires ValidIndicator(ind)
    requires 0 <= k < |wakes| && IsIdle(ind, wakes[k])
    ensures RunTicks(ind, wakes, fmt).1 != []
    ensures RunTicks(ind, wakes, fmt).0.idx > ind.idx
    decreases k
  {
    var s := Tick(ind, wakes[0].nowMs, wakes[0].lastActivityMs, fmt);
    if k == 0 {
      FramesDrawn(s.ind, wakes[1..], fmt);
    } else {
      assert wakes[1..][k - 1] == wakes[k];
      IdleWakeDraws(s.ind, wakes[1..], fmt, k - 1);
    }
  }
}
