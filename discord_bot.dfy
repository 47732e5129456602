/**
 * The decisions of scripts/discord_codex_bridge_bot.py: which channels may
 * use the slash commands, how a job record from the HTTP bridge is shown,
 * and the settings the bot starts with. Discord, the bridge client and the
 * asynchronous polling are outside the model.
 */
module DiscordBot {
  import opened Wrappers
  import opened Text
  import Json

  // ---------------------------------------------------------------------------
  // truncate

  /** The default limit of `truncate`. */
  const TruncateLimit: nat := 1400

  // ---------------------------------------------------------------------------
  // channel allowlist

  /** Python's `str.isdigit` on the characters this model knows: the ASCII
      digits and the Latin-1 superscripts one, two and three, which
      `isdigit` accepts but `int` refuses. */
  predicate PyIsDigitChar(c: char) {
    IsDigit(c) || c == '\U{B9}' || c == '\U{B2}' || c == '\U{B3}'
  }

  predicate PyIsDigit(s: string) {
    |s| > 0 && forall i :: 0 <= i < |s| ==> PyIsDigitChar(s[i])
  }

  /** One item of `parse_channel_allowlist` as written: stripped, kept when
      `isdigit` holds, then read by `int`. */
  function AllowlistItemAsWritten(item: string): Result<Option<int>> {
    var t := Strip(item);
    if PyIsDigit(t) then
      match PyInt(t)
      case Ok(n) => Ok(Some(n))
      case Err(e) => Err(e)
    else Ok(None)
  }

  lemma StripSuperscript()
    ensures Strip("\U{B2}") == "\U{B2}"
  {
    StripByFramedless("\U{B2}", Whitespace);
  }

  /** An item `isdigit` accepts can still make `int` raise, so a superscript
      two in the allowlist stops the bot at start-up. */
  lemma AllowlistItemAsWrittenRaises(item: string)
    requires item == "\U{B2}"
    ensures AllowlistItemAsWritten(item).Err?
  {
    StripSuperscript();
    AsWrittenRaisesOn(item);
  }

  /** Whenever the stripped item passes `isdigit` without being ASCII
      digits, `int` raises. */
  lemma AsWrittenRaisesOn(item: string)
    requires PyIsDigit(Strip(item)) && !IsDigits(Strip(item))
    ensures AllowlistItemAsWritten(item).Err?
  {
    var t := Strip(item);
    var k :| 0 <= k < |t| && !IsDigit(t[k]);
    PyIntRejects(t, k);
  }

  /** The channel id an item names, if it is an ASCII decimal number. */
  function AllowlistItem(item: string): Option<int> {
    var t := Strip(item);
    if IsDigits(t) then Some(DigitsValue(t) as int) else None
  }

  /** The item test `int` can always follow: every item kept is a
      non-negative number that `int` reads without raising. */
  lemma AllowlistItemSpec(item: string)
    ensures var t := Strip(item);
      && (AllowlistItem(item).Some? <==> IsDigits(t))
      && (AllowlistItem(item).Some? ==> AllowlistItem(item).value >= 0
                                        && PyInt(t) == Ok(AllowlistItem(item).value))
  {
    var t := Strip(item);
    if IsDigits(t) {
      PyIntOfDigits(t);
    }
  }

  /** The ids `f` finds among `items`. */
  function Collect(items: seq<string>, f: string -> Option<int>): set<int> {
    if items == [] then {}
    else
      var last := f(items[|items| - 1]);
      Collect(items[..|items| - 1], f) + (if last.Some? then {last.value} else {})
  }

  /** An id is collected exactly when some item yields it. */
  lemma {:induction false} CollectSpec(items: seq<string>, f: string -> Option<int>, id: int)
    ensures id in Collect(items, f) <==> exists k :: 0 <= k < |items| && f(items[k]) == Some(id)
  {
    if items != [] {
      var init := items[..|items| - 1];
      CollectSpec(init, f, id);
      if exists k :: 0 <= k < |init| && f(init[k]) == Some(id) {
        var k :| 0 <= k < |init| && f(init[k]) == Some(id);
        assert items[k] == init[k];
      }
      if exists k :: 0 <= k < |items| && f(items[k]) == Some(id) {
        var k :| 0 <= k < |items| && f(items[k]) == Some(id);
        if k < |init| {
          assert init[k] == items[k];
        }
      }
    }
  }

  /** The channels an allowlist setting names: none when it is blank,
      otherwise the numbers among its comma-separated items. */
  function AllowlistOf(raw: string): set<int> {
    if Strip(raw) == [] then {} else Collect(Split(raw, ','), AllowlistItem)
  }

  /** `parse_channel_allowlist`, with `isdigit` read as ASCII digits. */
  method ParseChannelAllowlist(raw: string) returns (out: set<int>)
    ensures out == AllowlistOf(raw)
  {
    if Strip(raw) == [] {
      return {};
    }
    out := {};
    var items := Split(raw, ',');
    for i := 0 to |items|
      invariant out == Collect(items[..i], AllowlistItem)
    {
      assert items[..i + 1][..i] == items[..i];
      var item := AllowlistItem(items[i]);
      if item.Some? {
        out := out + {item.value};
      }
    }
    assert items[..|items|] == items;
  }

  /** Writing a non-empty list of channel ids comma-separated and parsing it
      gives back exactly those ids. */
  lemma AllowlistRoundTrip(ids: seq<nat>)
    requires |ids| >= 1
    ensures AllowlistOf(Join(IdTexts(ids), ',')) == set id | id in ids :: id as int
  {
    var parts := IdTexts(ids);
    var raw := Join(parts, ',');
    IdTextsSpec(ids);
    SplitJoin(parts, ',');
    JoinNotBlank(parts);
    forall k | 0 <= k < |parts|
      ensures AllowlistItem(parts[k]) == Some(ids[k] as int)
    {
      StripDigits(parts[k]);
      NatToStringRoundTrip(ids[k]);
    }
    assert AllowlistOf(raw) == Collect(parts, AllowlistItem);
    forall x | x in Collect(parts, AllowlistItem) ensures x in set id | id in ids :: id as int {
      CollectSpec(parts, AllowlistItem, x);
      var k :| 0 <= k < |parts| && AllowlistItem(parts[k]) == Some(x);
      assert ids[k] in ids;
    }
    forall x | x in set id | id in ids :: id as int ensures x in Collect(parts, AllowlistItem) {
      var k :| 0 <= k < |ids| && ids[k] as int == x;
      CollectSpec(parts, AllowlistItem, x);
    }
  }

  /** The decimal texts of a list of ids. */
  function IdTexts(ids: seq<nat>): (parts: seq<string>)
    ensures |parts| == |ids|
  {
    seq(|ids|, k requires 0 <= k < |ids| => NatToString(ids[k]))
  }

  lemma IdTextsSpec(ids: seq<nat>)
    ensures forall k :: 0 <= k < |ids| ==> IdTexts(ids)[k] == NatToString(ids[k]) && IsDigits(IdTexts(ids)[k])
    ensures forall k :: 0 <= k < |ids| ==> ',' !in IdTexts(ids)[k]
  {
    forall k | 0 <= k < |ids| ensures ',' !in IdTexts(ids)[k] {
      var t := IdTexts(ids)[k];
      assert IsDigits(t);
      assert forall j :: 0 <= j < |t| ==> t[j] != ',';
    }
  }

  /** A join whose first part is a digit string is not blank. */
  lemma JoinNotBlank(parts: seq<string>)
    requires |parts| >= 1 && IsDigits(parts[0])
    ensures Strip(Join(parts, ',')) != []
  {
    JoinHead(parts, ',');
    NotBlank(Join(parts, ','));
  }

  lemma NotBlank(s: string)
    requires s != [] && IsDigit(s[0])
    ensures Strip(s) != []
  {
    StripEmptyIff(s);
  }

  lemma JoinHead(parts: seq<string>, sep: char)
    requires |parts| >= 1 && parts[0] != []
    ensures Join(parts, sep) != [] && Join(parts, sep)[0] == parts[0][0]
  {
    if |parts| > 1 {
      assert Join(parts, sep) == parts[0] + ([sep] + Join(parts[1..], sep));
    }
  }

  /** `_channel_allowed`: an empty allowlist lets every channel through. */
  predicate ChannelAllowed(allowed: set<int>, channelId: int) {
    allowed == {} || channelId in allowed
  }

  /** `_guard_channel`: an interaction without a channel counts as channel 0. */
  predicate GuardChannel(allowed: set<int>, channelId: Option<int>) {
    ChannelAllowed(allowed, channelId.GetOr(0))
  }

  /** With no allowlist every interaction passes; with one, exactly the
      listed channels pass, and an interaction without a channel passes only
      when channel 0 is listed. */
  lemma GuardChannelSpec(allowed: set<int>, channelId: Option<int>)
    ensures allowed == {} ==> GuardChannel(allowed, channelId)
    ensures allowed != {} && channelId.Some? ==> (GuardChannel(allowed, channelId) <==> channelId.value in allowed)
    ensures allowed != {} && channelId.None? ==> (GuardChannel(allowed, channelId) <==> 0 in allowed)
  {
  }

  // ---------------------------------------------------------------------------
  // status messages

  const InProgressHeader: string := "작업 진행 중\n"
  const DoneHeader: string := "작업 완료\n"

  /** The value `job.get(key, default)` turns into text in an f-string. */
  function FieldText(job: Json.Object, key: string, default: Json.Value): string {
    Json.PyStr(Json.Get(job, key, default))
  }

  /** The three lines every status message starts with. */
  function BaseLines(job: Json.Object): seq<string> {
    ["- job_id: `" + FieldText(job, "id", Json.Str("-")) + "`",
     "- status: `" + Json.PyStr(Json.StatusOf(job)) + "`",
     "- return_code: `" + FieldText(job, "return_code", Json.Null) + "`"]
  }

  function StdoutLine(t: string): string {
    "- stdout:\n```text\n" + t + "\n```"
  }

  function StderrLine(t: string): string {
    "- stderr:\n```text\n" + t + "\n```"
  }

  function ErrorLine(t: string): string {
    "- error: `" + t + "`"
  }

  /** `[line]` when `t` is non-empty, else nothing. */
  function LineIf(t: string, line: string): seq<string> {
    if t != [] then [line] else []
  }

  /** The message `_format_status` builds: for a queued or running job the
      in-progress header and the three base lines; otherwise the completion
      header, the base lines and then a line for each of stdout, stderr and
      error that is non-empty after truncation, in that order. */
  function StatusMessage(job: Json.Object): Result<string> {
    if Json.IsActive(Json.StatusOf(job)) then Ok(InProgressHeader + Join(BaseLines(job), '\n'))
    else
      match Json.Outputs(job, TruncateLimit)
      case Err(e) => Err(e)
      case Ok((out, err, error)) =>
        Ok(DoneHeader + Join(BaseLines(job) + LineIf(out, StdoutLine(out)) + LineIf(err, StderrLine(err))
                             + LineIf(error, ErrorLine(error)), '\n'))
  }

  /** `_format_status` */
  method FormatStatus(job: Json.Object) returns (r: Result<string>)
    ensures r == StatusMessage(job)
  {
    var status := Json.StatusOf(job);
    var lines := BaseLines(job);
    if Json.IsActive(status) {
      return Ok(InProgressHeader + Join(lines, '\n'));
    }
    var out := Json.TruncateValue(Json.Get(job, "stdout", Json.Str("")), TruncateLimit);
    if out.Err? {
      return Err(out.error);
    }
    var err := Json.TruncateValue(Json.Get(job, "stderr", Json.Str("")), TruncateLimit);
    if err.Err? {
      return Err(err.error);
    }
    var error := Json.TruncateValue(Json.Get(job, "error", Json.Str("")), TruncateLimit);
    if error.Err? {
      return Err(error.error);
    }
    assert Json.Outputs(job, TruncateLimit) == Ok((out.value, err.value, error.value));
    if out.value != [] {
      lines := lines + [StdoutLine(out.value)];
    }
    assert lines == BaseLines(job) + LineIf(out.value, StdoutLine(out.value));
    if err.value != [] {
      lines := lines + [StderrLine(err.value)];
    }
    assert lines == BaseLines(job) + LineIf(out.value, StdoutLine(out.value)) + LineIf(err.value, StderrLine(err.value));
    if error.value != [] {
      lines := lines + [ErrorLine(error.value)];
    }
    assert lines == BaseLines(job) + LineIf(out.value, StdoutLine(out.value)) + LineIf(err.value, StderrLine(err.value))
                    + LineIf(error.value, ErrorLine(error.value));
    r := Ok(DoneHeader + Join(lines, '\n'));
  }

  /** A job record as the HTTP bridge sends it (its `to_dict`). */
  predicate BridgeRecord(job: Json.Object) {
    && "stdout" in job && job["stdout"].Str?
    && "stderr" in job && job["stderr"].Str?
    && "error" in job && (job["error"].Str? || job["error"].Null?)
  }

  /** A record from the HTTP bridge always formats. A queued or running job
      shows no output whatever it holds; a finished one shows its stdout
      exactly when it is non-blank, truncated to 1400 characters, and
      likewise its stderr, and its error exactly when one was recorded. */
  lemma StatusMessageSpec(job: Json.Object)
    requires BridgeRecord(job)
    ensures StatusMessage(job).Ok?
    ensures Json.IsActive(Json.StatusOf(job)) ==> StatusMessage(job) == Ok(InProgressHeader + Join(BaseLines(job), '\n'))
    ensures !Json.IsActive(Json.StatusOf(job)) ==>
      var out := Truncate(job["stdout"].s, TruncateLimit);
      var err := Truncate(job["stderr"].s, TruncateLimit);
      var error := if job["error"].Str? then Truncate(job["error"].s, TruncateLimit) else "";
      && Json.Outputs(job, TruncateLimit) == Ok((out, err, error))
      && (out != [] <==> Strip(job["stdout"].s) != [])
      && (err != [] <==> Strip(job["stderr"].s) != [])
      && (error != [] <==> job["error"].Str? && Strip(job["error"].s) != [])
  {
  }

  /** In a finished job's message the lines after the three base lines are
      the output lines present, in the order stdout, stderr, error: there are
      as many as there are non-empty outputs. */
  lemma DoneLinesSpec(base: seq<string>, out: string, err: string, error: string)
    ensures var lines := base + LineIf(out, StdoutLine(out)) + LineIf(err, StderrLine(err)) + LineIf(error, ErrorLine(error));
      && lines[..|base|] == base
      && |lines| == |base| + (if out != [] then 1 else 0) + (if err != [] then 1 else 0) + (if error != [] then 1 else 0)
      && (out != [] ==> lines[|base|] == StdoutLine(out))
      && (out == [] && err != [] ==> lines[|base|] == StderrLine(err))
      && (error != [] ==> lines[|lines| - 1] == ErrorLine(error))
  {
  }

  // ---------------------------------------------------------------------------
  // settings

  /** What the bot starts with. The poll interval, a float, is not modelled. */
  datatype BotSettings = BotSettings(discordToken: string, bridgeToken: string, bridgeBaseUrl: string,
                                     bridgeTimeoutSec: int, maxWaitSec: int, guildId: Option<int>,
                                     allowedChannels: set<int>)

  const MinMaxWaitSec := 30

  function Setting(config: map<string, string>, key: string, default: string): string {
    if key in config then config[key] else default
  }

  /** The guild id: used only when the raw setting, unstripped, is a number. */
  function GuildOf(raw: string): Option<int> {
    if IsDigits(raw) then Some(DigitsValue(raw) as int) else None
  }

  /** `main` up to starting the bot: both tokens must be set, the two
      integer settings must parse, and the wait is at least 30 seconds. */
  function Settings(config: map<string, string>): Result<BotSettings> {
    var discordToken := Strip(Setting(config, "DISCORD_BOT_TOKEN", ""));
    var bridgeToken := Strip(Setting(config, "BRIDGE_TOKEN", ""));
    var baseUrl := Strip(Setting(config, "BRIDGE_BASE_URL", "http://127.0.0.1:8787"));
    if discordToken == [] then Err("DISCORD_BOT_TOKEN is not set.")
    else if bridgeToken == [] then Err("BRIDGE_TOKEN is not set.")
    else
      var timeout := PyInt(Setting(config, "BRIDGE_HTTP_TIMEOUT_SEC", "20"));
      var maxWait := PyInt(Setting(config, "DISCORD_BRIDGE_MAX_WAIT_SEC", "900"));
      if timeout.Err? then Err(timeout.error)
      else if maxWait.Err? then Err(maxWait.error)
      else
        Ok(BotSettings(discordToken, bridgeToken, baseUrl, timeout.value,
                       if maxWait.value > MinMaxWaitSec then maxWait.value else MinMaxWaitSec,
                       GuildOf(Setting(config, "DISCORD_GUILD_ID", "")),
                       AllowlistOf(Setting(config, "DISCORD_ALLOWED_CHANNELS", ""))))
  }

  /** The bot never starts without both tokens; it waits at least 30 seconds
      for a job and otherwise exactly as long as configured; it uses a guild
      exactly when the guild setting is a number. */
  lemma SettingsSpec(config: map<string, string>)
    ensures var r := Settings(config);
      && (Strip(Setting(config, "DISCORD_BOT_TOKEN", "")) == [] ==> r == Err("DISCORD_BOT_TOKEN is not set."))
      && (r.Ok? ==> && r.value.discordToken != [] && r.value.bridgeToken != []
                    && r.value.maxWaitSec >= MinMaxWaitSec
                    && (var w := PyInt(Setting(config, "DISCORD_BRIDGE_MAX_WAIT_SEC", "900"));
                        w.Ok? && (w.value >= MinMaxWaitSec ==> r.value.maxWaitSec == w.value))
                    && (r.value.guildId.Some? <==> IsDigits(Setting(config, "DISCORD_GUILD_ID", ""))))
  {
  }
}
