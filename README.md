# discord-mod-mail relay policy, in Dafny

discord-mod-mail is a bot that relays users' direct messages (DMs) into one staff channel. It also sends staff replies back to those users. This project models the bot's `on_message` handler in `run.py` together with its state:

- the ignore list `ignored_users`, mirrored in `ignored.json`;
- the per-user anti-spam counters `anti_spam_check`;
- the `already_ready` flag.

The handler reacts to four kinds of event:

- **A DM arrives.** It is dropped when its author is ignored. Otherwise the author's counter goes up by one. When the counter reaches the `messages` threshold, the author is auto-ignored and the DM is not relayed. Otherwise the DM is relayed to the staff channel.
- **A decay runs.** This is the second half of the relay path. After `asyncio.sleep` the counter comes down by one. Here it is a separate event, `ModMail.Decay`, and only a relayed DM that is still waiting can trigger it.
- **A staff message arrives.** If it starts with the command prefix, the prefix is cut off, the rest is stripped and it is split at its first space into a name and contents. A name with no contents raises `IndexError` and changes nothing.
- **A command is dispatched.** `ignore <id>` and `unignore <id>` edit the list. Any other name is a user id: the reply goes through the first server that has that member.

Layout:

- `builtins.dfy` holds the Python built-ins the handler relies on: `str.strip` and `str.split(' ', 1)` for the command parse, and `list.remove` for `unignore`. `Index` is the search for the first occurrence inside `split` and `remove`.
- `color.dfy` holds the 24-bit packing in `gen_color`.
- `commands.dfy` holds the command parse.
- `config.dfy` holds how the `anonymous_staff` setting is read.
- `policy.dfy` holds the ignore list and the counters as values.
- `relay.dfy` holds the handler: the class `ModMail`, whose methods update the fields in place.

`ModMail.Valid()` has two parts:

- `ignored.json` always equals the in-memory list.
- Every user's counter is exactly the number of their relayed DMs still waiting for a decay, plus the number of times they were auto-ignored (a ghost multiset).

Two consequences follow. No counter goes negative. And the counter of a user who was auto-ignored never returns to zero. `Relay.RepeatSpammer` walks through that scenario.

The effects of a message are returned as an `Effect` value, so "nothing is relayed" can be stated. `Effect` stands in for the chat-platform calls.

## Model

| member | source | states |
|---|---|---|
| `Builtins.StripLeft` | run.py:90 | the result is a suffix of the input, everything cut is whitespace, and it does not start with whitespace |
| `Builtins.StripRight` | run.py:90 | the result is a prefix of the input, everything cut is whitespace, and it does not end with whitespace |
| `Builtins.Strip` | run.py:90 | `strip()` leaves no whitespace at either end and never lengthens the text |
| `Builtins.StripCuts` | run.py:90 | `strip()` yields a contiguous middle of the input, and all the text it removes at both ends is whitespace |
| `Builtins.StripTrimmed` | run.py:90 | text without whitespace at its ends is returned unchanged |
| `Builtins.StripIdempotent` | run.py:90 | stripping twice is the same as stripping once |
| `Builtins.Index` | run.py:107 | the first position holding the element: it holds it, and no earlier position does |
| `Builtins.SplitOnce` | run.py:90 | `split(' ', 1)`: one part exactly when the separator is absent, otherwise head + separator + tail rebuilds the text and the head has no separator |
| `Builtins.SplitOnceJoin` | run.py:90-92 | splitting a separator-free head, the separator and a tail gives back exactly that head and tail |
| `Builtins.RemoveFirst` | run.py:107 | `list.remove` takes out exactly the first occurrence: the result is the list without that position, which holds the element with no earlier copy, so it is one shorter and loses one copy from its multiset |
| `Color.GenColor` | run.py:46-51 | packing three bytes as `(r<<16)+(g<<8)+b` gives a value in [0, 2^24) |
| `Color.ChannelsOfGenColor` | run.py:51 | red, green and blue can each be read back from the packed colour |
| `Color.GenColorOfChannels` | run.py:51 | every value in [0, 2^24) is the packing of its own three channels |
| `Commands.ParseCommand` | run.py:88-92 | not a command exactly when the prefix is absent; otherwise the stripped remainder is the space-free name alone (the `IndexError` at line 92) or name + " " + contents |
| `Commands.FirstToken` | run.py:94 | the id an `ignore`/`unignore` command uses is the space-free beginning of the contents, ending at the first space |
| `Commands.ParseCommandRoundTrip` | run.py:88-92 | prefix + name + " " + contents parses back to that name and those contents |
| `Commands.BareCommandRaises` | run.py:90-92 | a command name alone, even with trailing spaces, raises at line 92 |
| `Commands.StripSpaces` | run.py:90 | a word followed by spaces strips to the word |
| `Config.StaffAnonymous` | run.py:116-119 | corrected: anonymous exactly when the setting is a true spelling in any case (`1`, `yes`, `true`, `on`), so only when the as-written test also says so, and never for a false spelling |
| `Config.FalseSettingStillAnonymous` | run.py:116 | `anonymous_staff = False` hides the staff member's name as written, and not once corrected |
| `Config.FalseSpellingsStillAnonymous` | run.py:116 | every false spelling of the setting, in any case, hides the staff member's name as written, and none does once corrected |
| `Policy.Ignore` | run.py:94-101 | the id is in the list afterwards, membership is the old list plus the id, nothing changes if it was there, it is appended otherwise, and a duplicate-free list stays duplicate-free |
| `Policy.Unignore` | run.py:103-110 | nothing changes when the id is absent, one copy is removed otherwise, and on a duplicate-free list the id is gone while everything else stays |
| `Policy.RemoveKeepsNoDuplicates` | run.py:107 | removing an id from a duplicate-free list keeps it duplicate-free and leaves exactly the other ids |
| `Policy.UnignoreUndoesIgnore` | run.py:94-110 | `ignore` then `unignore` of an id that was not ignored restores the list exactly |
| `Policy.IgnoreUndoesUnignore` | run.py:94-110 | `unignore` then `ignore` of an ignored id restores the same ids |
| `Policy.CommandsIdempotent` | run.py:95-107 | repeating `ignore`, or repeating `unignore` on a duplicate-free list, changes nothing more |
| `Policy.Bump` | run.py:66-68 | the user's counter goes up by exactly one, starting from 0 when missing, and no other counter changes |
| `Policy.Decay` | run.py:86 | the user's counter goes down by exactly one, and no other counter changes |
| `Policy.DecayUndoesBump` | run.py:66-86 | a relayed DM followed by its decay leaves every counter where it was |
| `Relay.FindMember` | run.py:112-130 | the loop over servers stops at the first one that has the member, and finds none only when no server has it |
| `Relay.BalancedRelay` | run.py:68-86 | a relayed DM keeps each counter equal to that user's pending decays plus their auto-ignores |
| `Relay.BalancedAutoIgnore` | run.py:66-75 | an auto-ignore keeps that balance |
| `Relay.BalancedDecay` | run.py:85-86 | a decay keeps that balance, and the user has a counter to decrement |
| `Relay.ModMail.constructor` | run.py:19-29 | start-up: not ready, the list loaded from `ignored.json` or empty when the file is missing, no counters, and the settings kept as given |
| `Relay.ModMail.OnReady` | run.py:33-43 | the bot is ready afterwards, whether or not it already was |
| `Relay.ModMail.OnMessage` | run.py:57-63 | the bot's own messages, messages before ready and messages in other channels change nothing; DMs follow `DirectStep` and staff messages `StaffStep`; the list never gains a duplicate |
| `Relay.ModMail.OnDirect` | run.py:63-86 | an ignored author's DM changes nothing; any other DM raises the counter by one and is either relayed with a decay pending, or at the threshold gets the author appended to the list without being relayed |
| `Relay.ModMail.AutoIgnore` | run.py:66-75 | at the threshold the author's counter goes up by one, they are appended to the list exactly as `Ignore` says, the list is saved, and a duplicate-free list stays so |
| `Relay.ModMail.Relay` | run.py:66-86 | below the threshold the author's counter goes up by one and one more decay is pending for them |
| `Relay.ModMail.OnStaff` | run.py:87-92 | the counters are untouched; a non-command does nothing, a bare name raises, `ignore` and `unignore` edit the list as `Ignore`/`Unignore` say, and a reply leaves the list unchanged |
| `Relay.ModMail.IgnoreCommand` | run.py:93-101 | the list becomes `Ignore(old, id)`, is saved, and staff are told "already ignored" or "now ignored" |
| `Relay.ModMail.UnignoreCommand` | run.py:102-110 | the list becomes `Unignore(old, id)`, is saved, and staff are told "not ignored" or "no longer ignored" |
| `Relay.ModMail.ReplyCommand` | run.py:111-130 | the reply goes to the first server with that member; it is signed unless anonymous and flagged when the user is ignored; nothing is sent when no server has the member |
| `Relay.ModMail.Decay` | run.py:85-86 | the counter comes down by one, the pending decay is used up, and the counter stays at or above the user's number of auto-ignores |

## Left out

- Chat-platform calls are not modelled: `send_message`, `delete_message`, `change_presence`, `get_channel`, `close` and `client.run`. An `Effect` value names what would be sent. Mentions, embeds and message wording are presentation and are left out.
- The `Forbidden` handler at run.py:128-129 is not modelled. `Replied` means the DM to the user was attempted.
- `on_ready` also looks up the staff channel and closes the client when it is missing (run.py:36-39). That lookup is not modelled: the model assumes the channel is found and the start-up sends succeed. When the channel is missing, the send at run.py:40 goes to `None` and raises, so `already_ready` is never set at run.py:43 and every later message is dropped at run.py:61-62; `OnReady` does not capture that.
- Config parsing is not modelled. The prefix, the `messages` threshold and the `anonymous_staff` flag are constructor parameters. `Config` holds both readings of `anonymous_staff`: the program's own (`StaffAnonymousAsWritten`) and the corrected one (`StaffAnonymous`); a caller feeds either to the constructor. A non-numeric threshold, which would make `int()` fail, is not modelled.
- Config.StaffAnonymous: `getboolean` raises `ValueError` on a spelling it does not know; this reading treats such a value as not anonymous, so the reply is signed.
- File I/O for `ignored.json` is not modelled. The file's content is the field `saved`, and the loaded list is a constructor parameter. Malformed JSON is not modelled.
- `asyncio.sleep` is replaced by the `Decay` event, which the caller may interleave with other events in any order. In the DM branch and in `ignore`/`unignore` the other awaits are sends that come after every state change of their branch (the DM branch's decrement after them is the `Decay` event), so those branches need no split.
- Relay.ModMail.ReplyCommand: the "(replies ignored)" flag is read from `ignored_users` at run.py:124, after the send to the member at run.py:122. Another event in that await (an `ignore`/`unignore` of that id, or that user's DM reaching the threshold at run.py:70-71) can change the list first. The model takes the reply as one step and reads the flag from the list at dispatch.
- Relay.ModMail.OnReady: `on_ready` sets `already_ready` only after the awaits at run.py:39, 40 and 42, so a second `on_ready` arriving in that window repeats start-up (the staff-channel lookup and the presence change). The model takes `on_ready` as one step; its only state change is `ready`, so the repetition is not captured.
- `gen_color` seeds Python's `random` with the user id and draws the three bytes (run.py:47-50). The generator is external, so `GenColor` takes the bytes as inputs. The colour only decorates the embed, so `Effect` does not carry it.
- The attachments block (run.py:79-84) is not modelled. `attachment.urls` does not exist, so a DM with attachments raises there after being relayed, and that DM's decrement at line 86 never runs. The model treats every relayed DM as having no attachments.
- `gen_color(int(command_name))` at run.py:115 is reached only after a member with that id was found. Member ids are numeric, so the `ValueError` is not modelled.
- `Config.Lower` lowers ASCII letters only. Python's `str.lower` also folds other scripts, but no non-ASCII character lowers to a letter of configparser's boolean spellings that this model relies on.

## Findings

| source | as written | input that shows it | evidently intended | confidence | as-written member | corrected member |
|---|---|---|---|---|---|---|
| run.py:116 | `if config['Main']['anonymous_staff']:` tests the raw string, and every non-empty string is true | `anonymous_staff = False` (or `no`, `0`, `off`): replies are still sent as "Staff reply: " | read the setting as a boolean, as `getboolean` does | medium, not executed | `Config.StaffAnonymousAsWritten`, `Config.FalseSettingStillAnonymous`, `Config.FalseSpellingsStillAnonymous` | `Config.StaffAnonymous` (the reading a caller passes to `Relay.ModMail.constructor`, as `Relay.RepeatSpammer` does) |
