# PulceBot message handler and PID guard, modelled in Dafny

PulceBot is a small XMPP bot. It answers one-to-one chat messages with a
fixed vocabulary of five commands: `help`, `ip` (report the WAN address by
running the `get-wan-ip` helper), `exec <command>`, `exect <timeout> <command>`
and `ping`. At start-up a PID file keeps a second copy of the bot from
running.

This project models the two pieces of logic in `pulcebot.py`:

- **The inbound-message handler** (`PulceBot.message`). The model covers the
  message-type filter, the whitespace split of the body and the lower-casing
  of the first word. It covers the five-way keyword table and the extraction
  of the command text and timeout for `exec`/`exect`. It also covers the reply
  built from the way the command ended, and every path where the handler
  raises instead of replying.
- **The single-instance guard** in the `__main__` block. It reads the saved
  id, asks whether that process is live, and otherwise overwrites the file
  with the bot's own id.

Files:

- `wrappers.dfy`: `Option`.
- `text.dfy` (module `Text`): Python's `str.split()` with no argument,
  `' '.join`, ASCII `lower()`. It holds the lemmas about splitting, joining
  and collapsing whitespace.
- `numbers.dfy` (module `Numbers`): Python's `int(text)` in base 10 and
  `str(n)`, with the round trip between them.
- `handler.dfy` (module `Handler`): the data model and the handler.
  `Parse` decides from the message alone (ignore, fault, fixed reply, run
  `get-wan-ip`, or run a shell command with a timeout). `Complete` turns that
  decision and the environment's answers into an `Effect`: no reply, a reply,
  or a raised exception. `Handle` is the two together. The methods `Message`,
  `Dispatch`, `QueryWanIp` and `RunCommand` follow the source step by step.
  The token list loses its first one or two entries in place before being
  re-joined. The help text is built by appending line after line. Each method
  is proved equal to `Handle`/`Complete`.
- `message_properties.dfy` (module `MessageProperties`): what the handler
  promises, as lemmas over `Handle` and `Parse`.
- `pid_guard.dfy` (module `PidGuard`): the guard's decision `Decide`. It also
  holds the class `PidFile`, whose `Guard` method updates the file contents.
- `scenarios.dfy` (module `Scenarios`): two concrete conversations derived
  from the general lemmas.

The model follows one runtime: CPython 3.11 or later on POSIX, with the
default integer digit limit.

What the handler cannot see is a parameter, the datatype `Env`:

- `lex` stands for `shlex.split`. `None` means it raises `ValueError`.
- `run` stands for `subprocess.check_output` and returns an `Outcome`:
  `Success` or `NonZeroExit` with the captured bytes, `TimedOut` with the
  bytes captured before the deadline or `None` when nothing was captured
  (on this runtime `e.output` is then `None`), or `OtherFailure` for any
  other exception `check_output` raises, such as a missing program or a
  deadline too large to add to the clock.
- `decode` stands for `.decode('utf8')`. `None` means the bytes are not
  UTF-8.

A `Request` records the argument vector, the timeout and whether standard
error is merged. For `ip` it is `["get-wan-ip"]`, 60 seconds, not merged. For
`exec`/`exect` it is the lexed command, the requested timeout, merged. The
PID guard's "is this process live" (`psutil.pid_exists`) is a parameter
`live: int -> bool`. The file is an `Option<string>`.

Modelling notes:

- `Lower` maps only ASCII `A`–`Z`. Python's `str.lower()` also lower-cases
  other letters. The only one of those whose lower case is an ASCII letter is
  KELVIN SIGN (U+212A → `k`), and no keyword contains `k`. So the keyword
  chosen for any first word is the same in the model as in Python.
- `IsSpace` is the full set of characters Python's `str.isspace()` accepts,
  used by `split()`. `int()` strips a smaller set, `IntSpace`: it rewrites
  non-ASCII whitespace to spaces but skips only the ASCII space, tab,
  newline, vertical tab, form feed and carriage return. So the four ASCII
  separators U+001C..U+001F, which `str.isspace()` accepts, make `int()`
  refuse the text.
- The runtime refuses to convert between text and integers with
  more than 4300 decimal digits (`sys.get_int_max_str_digits()`). `int()`
  raises `ValueError` on such text (underscores are not counted), so the
  model's `ParseInt` gives `None` there. `Printable(n)` says that `str(n)`
  is within the limit.
- On this runtime `run()` re-raises the `TimeoutExpired` that
  `communicate()` built from the output read so far, so a timeout that
  captured no output has `e.output` equal to `None`, and
  `e.output.decode('utf8')` in the `exec`/`exect` handlers raises and no reply
  is sent; the model gives `Raise(NoOutput)`.
- An exception the source does not catch is the effect `Raise(e)`, with one
  `Error` per cause. In the bot such an exception ends the handling of that
  one message with no reply. `Raise` and `NoReply` are kept apart, so "silent
  no-op" (unknown word, filtered type) differs from "faulted".
- Passing an empty argument vector to `check_output` raises inside the
  `try` block. That exception is not one of the two caught ones, so the model
  gives `Raise(EmptyArgv)`.

## Model

| member | source | states |
|---|---|---|
| Text.Split | pulcebot.py:143 | every token of `body.split()` is non-empty and free of whitespace |
| Text.SplitEmpty | pulcebot.py:143-144 | `split()` gives no token exactly when the body is empty or all whitespace |
| Text.SplitKeepsText | pulcebot.py:143 | the tokens, concatenated, are exactly the body's non-whitespace characters in order |
| Text.FirstToken | pulcebot.py:143-144 | the first token is the first word whatever whitespace precedes it and whatever follows it |
| Text.Lower | pulcebot.py:144 | `lower()` keeps the length and lower-cases each character in place |
| Text.LowerMatchesCaseVariants | pulcebot.py:144 | the lower-cased word equals a lower-case keyword exactly when the word spells it in any mix of cases |
| Text.Join | pulcebot.py:163 | `' '.join(tokens)`; specified by `SplitJoin`, `JoinCollapsed` and `CollapseWhitespace` |
| Text.SplitJoin | pulcebot.py:163 | splitting `' '.join(tokens)` gives the tokens back |
| Text.CollapseWhitespace | pulcebot.py:171-172 | `' '.join(body.split())` has every whitespace run collapsed to one interior space and splits back to the same tokens |
| Numbers.ParseIntRoundTrip | pulcebot.py:221-225 | `int(str(n)) == n` for every integer `str()` can print (at most 4300 digits), so the id the guard writes is the id it reads back |
| Numbers.ParseInt | pulcebot.py:161 | `int(text)` in base 10; `None` where Python raises `ValueError`, including more than 4300 digits; specified by the round-trip, padding, separator and digits lemmas below |
| Numbers.IntToString | pulcebot.py:225 | `str(n)`: a minus sign exactly for a negative number, followed by decimal digits |
| Numbers.ParseIntIgnoresPadding | pulcebot.py:221 | whitespace that `int()` strips (not U+001C..U+001F) around the saved text does not change what `int()` reads |
| Numbers.ParseIntRejectsSeparator | pulcebot.py:221 | a text starting with an ASCII separator U+001C..U+001F is refused by `int()` |
| Numbers.ParseIntRejectsLongNumbers | pulcebot.py:161 | `int()` refuses the decimal text of a number with more than 4300 digits |
| Numbers.RemoveUnderscoresExactly | pulcebot.py:161 | the characters `int()` counts against the limit are, as a multiset, the text's characters with every underscore dropped and every other character kept as often as it occurs |
| Numbers.RemoveUnderscoresLeavesNone | pulcebot.py:161 | no underscore is left in the counted text |
| Numbers.ParseIntAcceptsOnlyDigits | pulcebot.py:161 | a timeout word `int()` accepts starts with a digit or a sign and has only digits and underscores after that |
| Numbers.NatToString | pulcebot.py:225 | `str()` of a process id is a non-empty string of decimal digits with no leading zero |
| Handler.Accepted | pulcebot.py:140 | only chat and normal messages are processed; specified by `OtherTypesIgnored` and `SilentExactly` |
| Handler.Route | pulcebot.py:146-178 | the keyword table: a command other than "nothing" exactly for the five keywords |
| Handler.Parse | pulcebot.py:140-144 | what the handler decides from the message alone; specified by `FirstWordDecides`, `FaultsExactly` and the `AnyCase` lemmas |
| Handler.ParseTokens | pulcebot.py:146-179 | the keyword branches given the tokens; specified by `ParseExectArgs` and the `AnyCase` lemmas |
| Handler.DecodedReply | pulcebot.py:156-177 | the reply `prefix + out.decode('utf8')`, raising on bytes that are not UTF-8; specified by `ShellReplies` and `WanIpReplies` |
| Handler.Complete | pulcebot.py:153-177 | the effect of carrying out a decision; specified by `ShellReplies`, `WanIpReplies`, `FailureReplyEchoesBody` |
| Handler.Handle | pulcebot.py:128-179 | the handler's whole effect; specified by the `MessageProperties` lemmas and matched by `Message` |
| Handler.Message | pulcebot.py:128-179 | the step-by-step handler (type filter, split, keyword branches) has exactly the effect `Handle` |
| Handler.Dispatch | pulcebot.py:146-179 | the keyword branches, including the in-place removal of tokens and the appended help lines, have exactly the effect of the keyword table |
| Handler.QueryWanIp | pulcebot.py:155-158 | the `ip` try block: only a timeout is caught |
| Handler.RunCommand | pulcebot.py:160-177 | the `exect` and `exec` try blocks: lex, run with merged stderr, catch timeout and non-zero exit |
| MessageProperties.OtherTypesIgnored | pulcebot.py:140 | a message of any type other than chat or normal gets no reply and raises nothing |
| MessageProperties.SilentExactly | pulcebot.py:140-179 | the handler is silent without faulting exactly for filtered types and first words outside the five keywords |
| MessageProperties.RouteIgnoresCase | pulcebot.py:144-146 | a word selects keyword k exactly when it spells k in any case |
| MessageProperties.FirstWordDecides | pulcebot.py:143-146 | the branch depends only on the first word; leading whitespace and trailing text do not change it |
| MessageProperties.ParseExectArgs | pulcebot.py:159-163 | `exect` with no further word faults, with a non-integer word faults, otherwise runs the words after the timeout joined |
| MessageProperties.PingAnyCase | pulcebot.py:178-179 | `ping` in any case, with anything after it, is answered exactly "pong" |
| MessageProperties.HelpAnyCase | pulcebot.py:146-153 | `help` in any case is answered with the fixed help text |
| MessageProperties.HelpNamesEveryCommand | pulcebot.py:147-152 | the help text has a line starting with each of the five keywords |
| MessageProperties.UnknownSilent | pulcebot.py:146-179 | a first word spelling none of the keywords, in any case, gets no reply and raises nothing |
| MessageProperties.IpAnyCase | pulcebot.py:154-156 | `ip` in any case runs `get-wan-ip` alone, 60-second timeout, stderr not merged |
| MessageProperties.ExecAnyCase | pulcebot.py:169-173 | `exec` runs the following words joined by single spaces with timeout 60; the text is collapsed and splits back to those words |
| MessageProperties.ExectAnyCase | pulcebot.py:159-164 | `exect` faults on a missing or non-integer timeout word; otherwise it runs the words after it, joined, with `int()` of that word as timeout |
| MessageProperties.JoinedTail | pulcebot.py:162-163 | the words after the deleted ones, re-joined, are collapsed and split back to themselves |
| MessageProperties.ShellReplies | pulcebot.py:164-168 | success replies the output verbatim; a timeout replies body + " timeout:\n\n" + output, or faults when nothing was captured; a non-zero exit replies body + " error:\n\n" + output |
| MessageProperties.FailureReplyEchoesBody | pulcebot.py:174-177 | a reply to a command that timed out or failed starts with the original message text |
| MessageProperties.WanIpReplies | pulcebot.py:155-158 | `ip` replies the output on success, body + " timeout" with no output on a timeout, and faults on a non-zero exit |
| MessageProperties.FaultsExactly | pulcebot.py:143-161 | before anything runs, the handler faults exactly on an empty or blank body, or an `exect` with a missing or non-integer timeout |
| MessageProperties.BareExecFaults | pulcebot.py:171-173 | `exec` with nothing after it faults on the empty command line |
| MessageProperties.BareExectFaults | pulcebot.py:160-164 | `exect` with a valid timeout and nothing after it faults on the empty command line |
| PidGuard.Decide | pulcebot.py:218-222 | the guard's decision on the file contents; specified by `StartsExactly`, `SavedIdDecides`, `SeparatorStops` |
| PidGuard.PidFile.Guard | pulcebot.py:218-225 | the guard's result is `Decide` of the old contents; the file becomes `str(pid)` only when start-up proceeds, else it is unchanged |
| PidGuard.SavedIdDecides | pulcebot.py:218-225 | a file holding a live id stops start-up; one holding a dead id is taken over |
| PidGuard.PaddedIdDecides | pulcebot.py:220-221 | the same holds with whitespace `int()` strips, such as a newline, around the saved id |
| PidGuard.SeparatorStops | pulcebot.py:220-221 | a saved id preceded by an ASCII separator U+001C..U+001F stops start-up as an unreadable PID file |
| PidGuard.StartsExactly | pulcebot.py:218-225 | start-up proceeds exactly when there is no file, or its text is an integer naming no live process |
| PidGuard.SecondInstanceExits | pulcebot.py:218-225 | after one instance claims the file, a second one started while the first is live exits and the file keeps the first id |
| Scenarios.PingExample | pulcebot.py:140-179 | "Ping" in a chat message is answered "pong"; in a group message it is ignored |
| Scenarios.UnknownExample | pulcebot.py:146-179 | "foobar" gets no reply |

## Left out

- The XMPP session is not modelled: event registration, `start`, presence and roster, plugin registration, `connect`/`process`. Sending a reply is the effect `Reply(text)`.
- Process execution is not modelled: launching, the stderr merge, and killing at the deadline. These are the environment's `run`, which reports only how the process ended and what it printed.
- `shlex.split` and UTF-8 decoding are parameters (`Env.lex`, `Env.decode`), not re-implemented. The claim that the lexer maps the empty text to no words is a hypothesis of `BareExecFaults` and `BareExectFaults`.
- Option parsing, logging, and the username/password prompts (lines 183-215) are not modelled. They are terminal I/O.
- `psutil.pid_exists` and the PID-file reads and writes are not modelled. What remains is the decision over a liveness parameter and optional contents. A file that exists but cannot be opened is not modelled.
- Numbers.ParseInt: accepts only ASCII digits, where Python's `int()` also accepts other Unicode decimal digits. Such a timeout word or saved id is treated as non-integer.
- IntToString: does not raise for a number of more than 4300 digits as `str()` does. The lemmas that print an id require `Printable`, and the bot prints only its own process id.
- The digit limit is fixed at its default 4300. `sys.set_int_max_str_digits` and `PYTHONINTMAXSTRDIGITS` can change it, and CPython releases without the limit (before 3.11 and its 3.7–3.10 security backports) accept any length. These are not modelled.
- Text.Lower: maps only ASCII letters. As explained above, this does not change which keyword is chosen.
- Concrete `exec`/`exect` conversations, such as `exect 1 sleep 5`, are covered by the general lemmas `ExectAnyCase` and `ShellReplies`, not by literal examples.
- Other runtimes are not modelled. The script also runs under Python 2, which has no `timeout=` for `subprocess`. Older Python 3 releases re-read the output after a timeout and so reply even when nothing was captured.
