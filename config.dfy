/**
 * The configuration check of the agent: the bot token and the channel id
 * must be set, the posting time must be a valid hour and minute, and the
 * interval must be at least one day. One error is collected per failed
 * check, in a fixed order. The settings are an explicit record instead of
 * module globals read from the environment.
 */
module Config {

  datatype Settings = Settings(
    botToken: string,
    channelId: string,
    postHour: int,
    postMinute: int,
    postIntervalDays: int)

  /** One failed check; the range errors carry the value that was rejected. */
  datatype ConfigError =
    | TokenMissing
    | ChannelMissing
    | HourOutOfRange(got: int)
    | MinuteOutOfRange(got: int)
    | IntervalTooSmall(got: int)

  /** Python's `not s or s == ''` on a string: `not s` holds of the empty string only. */
  predicate Unset(s: string) {
    |s| == 0 || s == ""
  }

  lemma UnsetIsEmpty(s: string)
    ensures Unset(s) <==> s == ""
  {
  }

  /** The checks in the order they are made. */
  predicate TokenOk(c: Settings) { !Unset(c.botToken) }
  predicate ChannelOk(c: Settings) { !Unset(c.channelId) }
  predicate HourOk(c: Settings) { 0 <= c.postHour <= 23 }
  predicate MinuteOk(c: Settings) { 0 <= c.postMinute <= 59 }
  predicate IntervalOk(c: Settings) { c.postIntervalDays >= 1 }

  predicate AllChecksPass(c: Settings) {
    TokenOk(c) && ChannelOk(c) && HourOk(c) && MinuteOk(c) && IntervalOk(c)
  }

  function Count(b: bool): nat { if b then 1 else 0 }

  function FailedChecks(c: Settings): nat {
    Count(!TokenOk(c)) + Count(!ChannelOk(c)) + Count(!HourOk(c)) + Count(!MinuteOk(c)) + Count(!IntervalOk(c))
  }

  /** Position of an error kind in the fixed order of the checks. */
  function Rank(e: ConfigError): nat {
    match e
    case TokenMissing => 0
    case ChannelMissing => 1
    case HourOutOfRange(_) => 2
    case MinuteOutOfRange(_) => 3
    case IntervalTooSmall(_) => 4
  }

  /** The error a failed check of rank `k` reports for `c`. */
  function ErrorAt(c: Settings, k: nat): ConfigError
    requires k < 5
  {
    if k == 0 then TokenMissing
    else if k == 1 then ChannelMissing
    else if k == 2 then HourOutOfRange(c.postHour)
    else if k == 3 then MinuteOutOfRange(c.postMinute)
    else IntervalTooSmall(c.postIntervalDays)
  }

  predicate CheckFails(c: Settings, k: nat)
    requires k < 5
  {
    if k == 0 then !TokenOk(c)
    else if k == 1 then !ChannelOk(c)
    else if k == 2 then !HourOk(c)
    else if k == 3 then !MinuteOk(c)
    else !IntervalOk(c)
  }

  /** The errors, as the successive checks would collect them. */
  function ConfigErrors(c: Settings): (errors: seq<ConfigError>)
    ensures |errors| == FailedChecks(c)
    ensures errors == [] <==> AllChecksPass(c)
  {
    (if TokenOk(c) then [] else [TokenMissing])
    + (if ChannelOk(c) then [] else [ChannelMissing])
    + (if HourOk(c) then [] else [HourOutOfRange(c.postHour)])
    + (if MinuteOk(c) then [] else [MinuteOutOfRange(c.postMinute)])
    + (if IntervalOk(c) then [] else [IntervalTooSmall(c.postIntervalDays)])
  }

  /**
   * `validate_config`: make the five checks in order, appending one error for
   * each that fails, and report valid when none did.
   */
  method ValidateConfig(c: Settings) returns (valid: bool, errors: seq<ConfigError>)
    ensures errors == ConfigErrors(c)
    ensures valid <==> AllChecksPass(c)
    ensures valid <==> errors == []
  {
    errors := [];
    if Unset(c.botToken) {
      errors := errors + [TokenMissing];
    }
    if Unset(c.channelId) {
      errors := errors + [ChannelMissing];
    }
    if !(0 <= c.postHour <= 23) {
      errors := errors + [HourOutOfRange(c.postHour)];
    }
    if !(0 <= c.postMinute <= 59) {
      errors := errors + [MinuteOutOfRange(c.postMinute)];
    }
    if c.postIntervalDays < 1 {
      errors := errors + [IntervalTooSmall(c.postIntervalDays)];
    }
    ValidIffNoErrors(c);
    valid := |errors| == 0;
  }

  /** No errors exactly when every check passes. */
  lemma ValidIffNoErrors(c: Settings)
    ensures ConfigErrors(c) == [] <==>
      c.botToken != "" && c.channelId != "" &&
      0 <= c.postHour <= 23 && 0 <= c.postMinute <= 59 && c.postIntervalDays >= 1
  {
  }

  /**
   * The errors are exactly those of the failed checks, each once, in the
   * order token, channel, hour, minute, interval.
   */
  lemma ErrorsInCheckOrder(c: Settings)
    ensures var e := ConfigErrors(c);
      forall i, j :: 0 <= i < j < |e| ==> Rank(e[i]) < Rank(e[j])
    ensures var e := ConfigErrors(c);
      forall i :: 0 <= i < |e| ==> CheckFails(c, Rank(e[i])) && e[i] == ErrorAt(c, Rank(e[i]))
    ensures forall k :: 0 <= k < 5 ==> (CheckFails(c, k) <==> ErrorAt(c, k) in ConfigErrors(c))
  {
    var a := if TokenOk(c) then [] else [TokenMissing];
    var b := if ChannelOk(c) then [] else [ChannelMissing];
    var h := if HourOk(c) then [] else [HourOutOfRange(c.postHour)];
    var m := if MinuteOk(c) then [] else [MinuteOutOfRange(c.postMinute)];
    var n := if IntervalOk(c) then [] else [IntervalTooSmall(c.postIntervalDays)];
    assert ConfigErrors(c) == a + b + h + m + n;
    ErrorsRanked(c, a, b, h, m, n);
    ErrorsFromFailedChecks(c, a, b, h, m, n);
    FailedChecksReported(c, a, b, h, m, n);
  }

  /** Helper: each piece holds exactly the error of its check when that check fails. */
  predicate PiecesOf(c: Settings, a: seq<ConfigError>, b: seq<ConfigError>, h: seq<ConfigError>,
                     m: seq<ConfigError>, n: seq<ConfigError>)
  {
    && a == (if CheckFails(c, 0) then [ErrorAt(c, 0)] else [])
    && b == (if CheckFails(c, 1) then [ErrorAt(c, 1)] else [])
    && h == (if CheckFails(c, 2) then [ErrorAt(c, 2)] else [])
    && m == (if CheckFails(c, 3) then [ErrorAt(c, 3)] else [])
    && n == (if CheckFails(c, 4) then [ErrorAt(c, 4)] else [])
  }

  lemma ErrorsRanked(c: Settings, a: seq<ConfigError>, b: seq<ConfigError>, h: seq<ConfigError>,
                     m: seq<ConfigError>, n: seq<ConfigError>)
    requires PiecesOf(c, a, b, h, m, n)
    ensures var e := a + b + h + m + n;
      forall i, j :: 0 <= i < j < |e| ==> Rank(e[i]) < Rank(e[j])
  {
    assert forall x :: x in a ==> Rank(x) == 0;
    assert forall x :: x in b ==> Rank(x) == 1;
    assert forall x :: x in h ==> Rank(x) == 2;
    assert forall x :: x in m ==> Rank(x) == 3;
    assert forall x :: x in n ==> Rank(x) == 4;
    RanksIncrease(a, b, h, m, n);
  }

  lemma ErrorsFromFailedChecks(c: Settings, a: seq<ConfigError>, b: seq<ConfigError>, h: seq<ConfigError>,
                               m: seq<ConfigError>, n: seq<ConfigError>)
    requires PiecesOf(c, a, b, h, m, n)
    ensures var e := a + b + h + m + n;
      forall i :: 0 <= i < |e| ==> CheckFails(c, Rank(e[i])) && e[i] == ErrorAt(c, Rank(e[i]))
  {
    var e := a + b + h + m + n;
    forall i | 0 <= i < |e|
      ensures CheckFails(c, Rank(e[i])) && e[i] == ErrorAt(c, Rank(e[i]))
    {
      assert e[i] in a || e[i] in b || e[i] in h || e[i] in m || e[i] in n;
    }
  }

  lemma FailedChecksReported(c: Settings, a: seq<ConfigError>, b: seq<ConfigError>, h: seq<ConfigError>,
                             m: seq<ConfigError>, n: seq<ConfigError>)
    requires PiecesOf(c, a, b, h, m, n)
    ensures forall k :: 0 <= k < 5 ==> (CheckFails(c, k) <==> ErrorAt(c, k) in a + b + h + m + n)
  {
    var e := a + b + h + m + n;
    forall k | 0 <= k < 5
      ensures CheckFails(c, k) <==> ErrorAt(c, k) in e
    {
      assert ErrorAt(c, k) in e <==>
        ErrorAt(c, k) in a || ErrorAt(c, k) in b || ErrorAt(c, k) in h || ErrorAt(c, k) in m || ErrorAt(c, k) in n;
    }
  }

  /** Helper: five at-most-singleton pieces of strictly increasing rank. */
  lemma RanksIncrease(a: seq<ConfigError>, b: seq<ConfigError>, h: seq<ConfigError>,
                      m: seq<ConfigError>, n: seq<ConfigError>)
    requires |a| <= 1 && |b| <= 1 && |h| <= 1 && |m| <= 1 && |n| <= 1
    requires forall x :: x in a ==> Rank(x) == 0
    requires forall x :: x in b ==> Rank(x) == 1
    requires forall x :: x in h ==> Rank(x) == 2
    requires forall x :: x in m ==> Rank(x) == 3
    requires forall x :: x in n ==> Rank(x) == 4
    ensures var s := a + b + h + m + n;
      forall i, j :: 0 <= i < j < |s| ==> Rank(s[i]) < Rank(s[j])
  {
    var s := a + b + h + m + n;
    forall k | 0 <= k < |s|
      ensures Rank(s[k]) == PositionPiece(|a|, |b|, |h|, |m|, k)
    {
      assert s[k] in a || s[k] in b || s[k] in h || s[k] in m || s[k] in n;
    }
  }

  /** Helper: the index of the piece that position `k` falls into. */
  function PositionPiece(la: int, lb: int, lh: int, lm: int, k: int): int {
    if k < la then 0
    else if k < la + lb then 1
    else if k < la + lb + lh then 2
    else if k < la + lb + lh + lm then 3
    else 4
  }

  /** The range bounds are inclusive: hour 0 and 23, minute 0 and 59 and interval 1 pass. */
  lemma BoundsInclusive(token: string, channel: string)
    requires token != "" && channel != ""
    ensures ConfigErrors(Settings(token, channel, 0, 0, 1)) == []
    ensures ConfigErrors(Settings(token, channel, 23, 59, 1)) == []
    ensures ConfigErrors(Settings(token, channel, 24, 59, 1)) == [HourOutOfRange(24)]
    ensures ConfigErrors(Settings(token, channel, 23, 60, 1)) == [MinuteOutOfRange(60)]
    ensures ConfigErrors(Settings(token, channel, -1, 0, 0)) == [HourOutOfRange(-1), IntervalTooSmall(0)]
  {
  }

  /** The default channel id is empty, so a configuration left at it never validates. */
  lemma DefaultChannelFails(c: Settings)
    requires c.channelId == ""
    ensures ChannelMissing in ConfigErrors(c)
    ensures ConfigErrors(c) != []
  {
    ErrorsInCheckOrder(c);
    assert CheckFails(c, 1);
  }
}
