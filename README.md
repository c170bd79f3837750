# Telegram agent post scheduler, modelled in Dafny

The agent publishes one generated post to a Telegram channel at a fixed time
of day (10:00 Moscow time) every few days (3). Its state is the time of the
last successful post, empty at start. From it, `get_next_post_time` works out
when the next post is due. `should_post_now` decides whether the current
instant is within 300 s of that time. `send_post` records the send time when
the message goes through. The poll loop `run_scheduler` checks, generates,
sends and sleeps 60 s, and swallows every `Exception`. A separate
`validate_config` checks the settings and collects one error per failed check.

Time is an integer count of microseconds of local wall-clock time, so the
calendar day of `t` is `t / 86_400_000_000` and `replace(hour, minute, 0, 0)`
is that day's midnight plus the posting time. The posting policy is a
parameter `Policy(hour, minute, intervalDays)` of the pure functions. The
class uses `SourcePolicy`, the agent's own constants 10:00 and 3 days.

Files:
- `wrappers.dfy`: `Option`.
- `schedule.dfy`: module `Schedule`, the due time and the due window as functions, with their lemmas.
- `agent.dfy`: module `Agent`. It holds the class `TelegramAgent` with field `lastPostTime`, methods `SendPost` and `Step`, and the pure effect of one loop iteration (`StepEffect`) that `Step` is proved against.
- `config.dfy`: module `Config`, `validate_config` as a method that appends to a sequence, proved equal to the reference function `ConfigErrors`.

Three behaviours of the code are easy to miss:
- The code has no missed-slot recovery. `Schedule.NoCatchUp` proves that once the due time is 300 s or more in the past, nothing is ever due again. `Agent.MissedSlotStaysMissed` proves that the loop then never publishes again.
- Delivery failures are not classified. `send_post` only tells a `TelegramError` (it returns false) apart from any other exception (passed on to the loop's handler). `Agent.Delivery` has exactly these outcomes.
- With no post yet, the due time is always strictly in the future, so the window is open only before it (`Schedule.FirstPostWindowBeforeSlot`).

## Model

| member | source | states |
|---|---|---|
| Schedule.SlotOffset | telegram_agent.py:99 | the posting time as an offset from midnight lies within one day, is a whole number of minutes (zero seconds and microseconds), and reads back as the policy's hour and minute |
| Schedule.ReplaceTime | telegram_agent.py:99 | `replace(hour, minute, 0, 0)` gives the same calendar day, at the posting time with zero seconds and microseconds |
| Schedule.NextPostTime | telegram_agent.py:88-108 | every result is a posting-time slot. With no post it is strictly after `now` and at most 24 h later. After a post at T it falls on the day of T plus the interval |
| Schedule.ShouldPostNow | telegram_agent.py:110-122 | with no post, due iff the next post time is less than 300 s ahead. After a post at T, due iff `now` is strictly within 300 s of the next post time fixed by T, on either side |
| Schedule.FirstPostIsNextSlot | telegram_agent.py:98-102 | with no post, the result is the first posting-time slot strictly after `now` |
| Schedule.FirstPostTodayOrTomorrow | telegram_agent.py:99-102 | with no post, the result is today when the time of day of `now` is before the posting time, otherwise tomorrow |
| Schedule.FirstPostWindowBeforeSlot | telegram_agent.py:110-122 | with no post, it is due iff the next slot is less than 300 s ahead, so never at or after the slot |
| Schedule.FirstPostWindowSameDay | telegram_agent.py:98-122 | for a posting time at least 300 s after midnight, the first post is due iff `now` lies in the open interval (today's slot − 300 s, today's slot) |
| Schedule.PollingHitsFirstWindow | telegram_agent.py:134-161 | polling every 60 s from any instant at or before a slot's window opens puts a poll inside that window, where, with no post, it is due |
| Schedule.ConsecutivePollsHitFirstWindow | telegram_agent.py:134-161 | with no post, when one poll is at or before a slot's window opens and the next follows less than 300 s later but past the opening, the later poll is due |
| Schedule.NextAfterPostIsLater | telegram_agent.py:103-106 | after a post at T, the next post time does not depend on `now`, is on a later day and is strictly after T, within the stated bounds |
| Schedule.PostedWindow | telegram_agent.py:110-122 | after a post, it is due iff `now` is strictly within 300 s of the next post time, on either side |
| Schedule.DueWindowIsStrict | telegram_agent.py:121-122 | after a post, exactly 300 s from the due time is not due, one microsecond closer is |
| Schedule.NoCatchUp | telegram_agent.py:103-122 | after a post, once `now` is 300 s or more past the due time, no later instant is due |
| Schedule.SourceScenarios | telegram_agent.py:29-31 | with 10:00 every 3 days: 09:00 gives 10:00 today, 11:00 gives 10:00 tomorrow, a post at 10:00 gives 10:00 three days later |
| Agent.SendEffect | telegram_agent.py:60-71 | `send_post` returns true exactly when the message was delivered and raises exactly on an exception other than `TelegramError`. The last post time becomes the send time only on delivery |
| Agent.StepEffect | telegram_agent.py:134-165 | one iteration waits exactly when not due, and publishes exactly when due, text was produced and the send was delivered. The state becomes the send time on a publish and is unchanged otherwise |
| Agent.FailedStepKeepsSchedule | telegram_agent.py:136-165 | a not-due iteration, a generator exception or a failed send leaves the next post time unchanged for every later poll |
| Agent.WaitingReportsNextPost | telegram_agent.py:150-158 | a not-due iteration reports the next post time, which is 300 s or more away |
| Agent.PublishedSchedule | telegram_agent.py:143-147 | after a publish, the reported next post time is a slot on the send day plus the interval, strictly after the send |
| Agent.PublishedNotDueAgainSoon | telegram_agent.py:143-161 | after a publish, neither the send time nor the next poll 60 s later is due, when posts are two or more days apart or the posting time is 360 s or more after midnight |
| Agent.DailyMidnightIsDueRightAfterPost | telegram_agent.py:103-122 | for a daily policy at 00:00, a post one microsecond before midnight is due again at once, so the side condition above is needed |
| Agent.Run | telegram_agent.py:134-165 | successive loop iterations give one report per poll, and a run without a publish leaves the last post time unchanged |
| Agent.MissedSlotStaysMissed | telegram_agent.py:134-165 | over polls in real-time order, once a poll finds the due time 300 s or more past, no later poll publishes and the last post time stays put |
| Agent.UndeliveredRunKeepsState | telegram_agent.py:136-149 | a run in which no send goes through never changes the last post time |
| Agent.LastPostTimeMonotone | telegram_agent.py:66 | over polls in real-time order, the last post time once set stays set and never moves backwards |
| Agent.TelegramAgent.constructor | telegram_agent.py:37-48 | a new agent has no last post time and keeps its channel id |
| Agent.TelegramAgent.SendPost | telegram_agent.py:50-71 | on success it records the send time and returns true. On a `TelegramError` it returns false. Any other exception propagates. Only success changes the state |
| Agent.TelegramAgent.Step | telegram_agent.py:134-165 | one poll iteration equals `StepEffect` with the agent's constants. It publishes only when due and changes the state only on publish. After a publish, neither the send time nor the next poll is due |
| Agent.TelegramAgent.RunPolls | telegram_agent.py:134-165 | a finite stretch of the poll loop, one `Step` per poll, ends in the state and reports that `Run` gives |
| Config.ConfigErrors | config.py:92-111 | the collected errors number exactly the failed checks, and the list is empty exactly when every check passes |
| Config.ValidateConfig | config.py:85-119 | builds exactly the errors of `ConfigErrors` by successive appends and returns true iff that list is empty and every check passes |
| Config.ValidIffNoErrors | config.py:92-119 | there are no errors iff the token is set, the channel is set, the hour is in 0..23, the minute is in 0..59 and the interval is at least 1 |
| Config.ErrorsInCheckOrder | config.py:95-111 | the errors come in the order token, channel, hour, minute, interval. Each comes from a failed check and carries the rejected value. Every failed check is reported |
| Config.BoundsInclusive | config.py:103-111 | hour 0 and 23, minute 0 and 59 and interval 1 pass, while hour 24, minute 60, hour −1 and interval 0 are each reported |
| Config.DefaultChannelFails | config.py:99-100 | an empty channel id (the default) is reported and makes validation fail |
| Config.UnsetIsEmpty | config.py:95 | for a string, `not s or s == ''` is the same as `s == ''` |

## Left out

- The Telegram client (`Bot`, `send_message`, `get_me`, `test_connection`) is a foreign network call. The send is only an outcome parameter: delivered, `TelegramError`, or another exception.
- The content generator is an opaque producer. Its result is a parameter: text, or `None` when it raised.
- The asyncio machinery, `asyncio.sleep(60)` and `KeyboardInterrupt` handling are runtime plumbing. The endless `while True` loop is modelled as one iteration (`Step`) and finite runs of iterations (`Run`, `RunPolls`). The 60 s sleep appears only as the constant `PollMicros` in lemmas.
- `datetime.now` becomes parameters. `now` is the reading for the due check, and `sentAt` is the reading taken inside `send_post` after a successful send.
- `should_post_now` reads the clock twice: once itself and once inside `get_next_post_time`, microseconds apart. The model uses a single `now` for both.
- pytz time zones and daylight saving are out. Europe/Moscow has a fixed offset, so local wall-clock time is treated as a plain integer.
- `total_seconds()` returns a float. The model compares the integer microsecond difference with 300 000 000 instead, which agrees for every difference the code can meet.
- The `OverflowError` of adding days beyond year 9999 is out, because the model's integers are unbounded.
- Logging and the hours/minutes formatting of the time until the next post are out. The `Waiting` report keeps only the next post time.
- `main`, `print_config` and the `int(os.getenv(...))` parsing of the settings are setup code. The settings are an explicit `Settings` record.
- The five error messages are the `ConfigError` kinds carrying the rejected value, not the message text. The printing loop over the errors is output only.
- `MAX_RETRIES` and `RETRY_DELAY` are defined in the configuration but never used, so they are not modelled.
- The test harness is interactive and sends real messages. It asserts nothing about scheduling, so it is not modelled.
