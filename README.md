# ContextualizeThat decision core, modelled in Dafny

ContextualizeThat is a chat bot. It watches the channels of a Mattermost
server and posts a "please contextualize that" prompt when a channel's
activity looks like a long thread. This project models the bot's decision core
and proves properties of it:

- **Activity oracle** (`Oracle.dfy`, `ChatOracle`). Each channel keeps a time-windowed list
  of recent messages and a history of that list's length, capped at 100000
  entries. Both live in a key/value store. A feed sorts the batch by time with a
  stable sort and appends it to the old list, without sorting the result again.
  It then drops every message older than the newest batch time minus 600. Last,
  it appends one count and evicts the oldest counts while there are too many
  (a `while` loop in `AddCounts`).
- **Rule engine** (`Algo.dfy`). A rule is a tree (`Rule`) whose nodes are:
  - AND/OR sequences that evaluate left to right and stop at the first result
    that decides;
  - `LongThread`, an anomaly test over the count history;
  - `Delay`, a debounce gate. It is a `DelayAlgo` object whose `lastTime` field
    changes in place, and two leaves may share one gate;
  - `Rando`, a comparison of a random draw against `chance`.

  `Eval` is the specification. It threads the gates' times and the number of
  random draws used. `Evaluate` walks the tree in place and is proved to agree
  with `Eval`. `EvalEager` is an independent reference that evaluates every
  sub-rule. The short-circuit lemmas relate the two.
- **Back-off policy** (`ErrorPolicy.dfy`). An error counter that only grows, and
  the exponent `factor * errors` of the sleep time `base ** exponent`.
- **Dictionary store** (`Database.dfy`). A class over a `map` with
  `setdefault`-style initialization.
- **Messages** (`Messages.dfy`). The `Message` record, and the conversion of
  the server's reply into messages. The reply is an ordered list of post ids
  plus a dictionary of posts.

Time is an abstract number (`real`). The message time is the server's
`create_at`, which is in milliseconds, while the window is `10 * 60`. The model
keeps both values as the code has them. The clock and the random number
generator are parameters: `now` is the time, and `draws(i)` is the i-th value
of `random.random()`.

The model keeps these behaviours of the code, which a reader might expect otherwise:

- The recent list is not re-sorted after the concatenation. The "latest
  message" is the last element, not the one with the greatest time
  (`Oracle.LateBatchLeavesListUnsorted`).
- A fresh gate with delay 100, asked at time 0, refuses: `0 - 0 >= 100` is
  false (`Algo.DelayGating`).
- AND/OR sequences short-circuit, because `all`/`any` consume a lazy generator.
  A later `Delay` is then not asked (`Algo.SequenceStopsAtFirstDecisive`).
- The default rule `and_seq(LongThread, Delay, Rando(75))` never fires for a
  draw in [0, 1) (`Algo.DefaultRuleNeverFires`).

## Model

| member | source | states |
|---|---|---|
| `Messages.MessageKeepsFields` | contextualizethat/message.py:11-16 | a message stores its id, author, text and time unchanged |
| `Messages.TransformOrder` | contextualizethat/message.py:63-69 | fails exactly on a missing post or a post with text but no `user_id`/`create_at`; yields a message exactly for a well-formed post with text, carrying the id, author, text and time of that post |
| `Messages.MsgFromApi` | contextualizethat/message.py:61-71 | succeeds iff no id of the order is malformed; then yields at most one message per entry of the order, each built from a post of the order |
| `Messages.MsgFromApiSelects` | contextualizethat/message.py:62-71 | a successful conversion takes the messages from strictly increasing positions of the order (order preserved), and a position is taken exactly when its post has a 'message' entry |
| `Messages.MsgFromApiFirstError` | contextualizethat/message.py:63-71 | a failed conversion reports the error of the first malformed id |
| `Database.DictDatabase.constructor` | contextualizethat/database.py:22-23 | a new store is empty |
| `Database.DictDatabase.Set` | contextualizethat/database.py:25-26 | after `db[k] = v` the key maps to `v` and every other key keeps its presence and value |
| `Database.DictDatabase.Get` | contextualizethat/database.py:28-29 | returns the stored value; the key must be present (otherwise KeyError) |
| `Database.DictDatabase.Initialize` | contextualizethat/database.py:31-32 | stores the default when the key is absent, leaves the store unchanged when it is present |
| `Oracle.SortByTime` | contextualizethat/oracle.py:72 | the sorted batch has as many messages as the batch |
| `Oracle.Window` | contextualizethat/oracle.py:76-79 | the window filter never adds messages |
| `Oracle.Threshold` | contextualizethat/oracle.py:72-74 | the cut-off is the greatest batch time minus the 600 window, and it is attained by a batch message |
| `Oracle.UpdatedRecents` | contextualizethat/oracle.py:69-81 | the new recent list holds at most the old list plus the batch, and every message in it is at or after the cut-off |
| `Oracle.SortByTimeSortsAndPermutes` | contextualizethat/oracle.py:72 | the batch sort returns the batch reordered (same multiset) by ascending time |
| `Oracle.SortByTimeStable` | contextualizethat/oracle.py:72 | the sort is stable: the messages of each time keep their relative order |
| `Oracle.SortedLastIsLatest` | contextualizethat/oracle.py:72-74 | the last message of the sorted batch is a batch message with the greatest time |
| `Oracle.WindowMembers` | contextualizethat/oracle.py:76-79 | a message survives the window filter iff it was in the input and its time is at least the threshold |
| `Oracle.WindowAppend` | contextualizethat/oracle.py:79 | filtering the chained lists is filtering each in turn |
| `Oracle.FeedRecents` | contextualizethat/oracle.py:69-81 | after a non-empty feed every kept message is in the window; a message is kept iff it was recent or fed and is in the window; the kept old messages come first in order, then the kept sorted batch; the last message is a batch message of greatest time |
| `Oracle.Capped` | contextualizethat/oracle.py:88-89 | the history never exceeds `COUNTS` entries, keeps all of them when within bound, and eviction removes only a prefix, the oldest entries |
| `Oracle.CappedAppend` | contextualizethat/oracle.py:83-89 | on a history within bound a feed appends its count and evicts at most the single oldest entry |
| `Oracle.LateBatchLeavesListUnsorted` | contextualizethat/oracle.py:72-81 | a batch older than the recent list leaves the list out of time order, with a last message that is not the newest |
| `Oracle.ChatOracle.constructor` | contextualizethat/oracle.py:30-34 | both slots become empty lists only when absent; existing stored state is kept, and no key besides the two slots is added |
| `Oracle.ChatOracle.GetLatestMessage` | contextualizethat/oracle.py:44-47 | none iff the recent list is empty, otherwise its last message |
| `Oracle.ChatOracle.GetNumMessages` | contextualizethat/oracle.py:49-50 | the length of the recent list |
| `Oracle.ChatOracle.GetMessageCounts` | contextualizethat/oracle.py:60-61 | the stored count history |
| `Oracle.ChatOracle.FeedMessages` | contextualizethat/oracle.py:63-67 | an empty batch changes nothing; otherwise the recent list becomes `UpdatedRecents` and the history gains the new length, capped; no other key changes |
| `Oracle.ChatOracle.UpdateRecent` | contextualizethat/oracle.py:69-81 | replaces the recent list by the window of the old list chained with the sorted batch; nothing else changes |
| `Oracle.ChatOracle.AddCounts` | contextualizethat/oracle.py:83-91 | appends the recent list's length, pops from the front while over `COUNTS`, stores the result; nothing else changes |
| `Algo.LongThreadFires` | contextualizethat/algo.py:59-70 | an empty history never signals a long thread, and a signalling history has a positive deviation (the value under the square root) |
| `Algo.SqrtComparison` | contextualizethat/algo.py:69-70 | for a non-negative value, its square root exceeds 0.25 iff the value exceeds 0.25 squared |
| `Algo.LongThreadQuietOnConstantHistory` | contextualizethat/algo.py:59-70 | an empty history, or one whose counts are all equal, never signals a long thread |
| `Algo.LongThreadFiresOnSpike` | contextualizethat/algo.py:63-70 | the history [1, 1, 1, 1, 10] signals a long thread |
| `Algo.DelayAlgo.constructor` | contextualizethat/algo.py:77-81 | a new gate has the given delay (default 1800) and last time 0 |
| `Algo.DelayAlgo.SendContextMessage` | contextualizethat/algo.py:83-89 | opens iff `now - lastTime >= delay`, then sets `lastTime` to `now`; when closed the state is unchanged |
| `Algo.DelayGating` | contextualizethat/algo.py:79-89 | a fresh gate of delay 100 refuses at 0 and 50, opens at 150, refuses at 200 |
| `Algo.RandoFires` | contextualizethat/algo.py:103-104 | for a draw in [0, 1), a chance of at least 1 never fires and a chance of at most 0 always fires |
| `Algo.DelayFires` | contextualizethat/algo.py:85-86 | a gate with a positive delay never opens at the instant it last opened; one with a delay of 0 or less opens whenever time has not gone backwards |
| `Algo.DefaultRule` | contextualizethat/algo.py:107 | the default rule's only state is its one Delay gate |
| `Algo.Eval` | contextualizethat/algo.py:38-104 | evaluation keeps the set of gates, never un-consumes draws, and leaves every gate outside the rule untouched |
| `Algo.EvalSeq` | contextualizethat/algo.py:20-39 | the same frame facts for a sequence evaluated left to right with early exit |
| `Algo.SequenceAgreesWithEager` | contextualizethat/algo.py:20-39 | and_seq yields true iff every sub-rule yields true and or_seq iff some sub-rule does, each sub-rule seeing the state its predecessors left |
| `Algo.SequenceStopsAtFirstDecisive` | contextualizethat/algo.py:38-39 | evaluation stops at the first false (AND) or first true (OR): result, gate times and draws are those just after that sub-rule, so later sub-rules are not evaluated |
| `Algo.SequenceUndecided` | contextualizethat/algo.py:38-39 | with no deciding sub-rule all sub-rules run and the result is true for AND, false for OR |
| `Algo.DefaultAlgo` | contextualizethat/algo.py:107-115 | builds and_seq(LongThread, Delay, Rando(75)) over a gate with the default delay and time 0 |
| `Algo.DefaultRuleNeverFires` | contextualizethat/algo.py:107 | the default rule is false for any draw in [0, 1); the gate moves and a draw is consumed only when LongThread holds (the draw only when the gate opens) |
| `Algo.Evaluate` | contextualizethat/algo.py:9-104 | evaluating a rule tree in place returns the result of `Eval`, consumes its draws and leaves every gate with the time `Eval` gives |
| `ErrorPolicy.SleepExponent` | contextualizethat/errorpolicy.py:16-19 | the exponent `factor * errors` of the sleep time `base ** exponent`: 0 before any error (a first sleep of 1), and never negative for a non-negative factor |
| `ErrorPolicy.SleepExponentIncreasing` | contextualizethat/errorpolicy.py:16-19 | with a positive factor the exponent strictly increases with the error count |
| `ErrorPolicy.SleepExponentStep` | contextualizethat/errorpolicy.py:16-22 | each further error adds exactly `factor` to the exponent |
| `ErrorPolicy.ExponentialBackOffErrorPolicy.constructor` | contextualizethat/errorpolicy.py:11-14 | stores base and factor (defaults 2 and 0.25) and starts the counter at 0 |
| `ErrorPolicy.ExponentialBackOffErrorPolicy.AcceptError` | contextualizethat/errorpolicy.py:21-23 | increments the counter by exactly one, returns the exponent for the new count, which is larger than the previous one for a positive factor; base and factor are constants |
| `ErrorPolicy.DefaultBackOff` | contextualizethat/errorpolicy.py:11-23 | a default policy returns exponents 0.25, 0.5, 0.75, 1.0 for its first four errors |

## Left out

- ErrorPolicy.SleepExponent: computes the exponent of `_sleep_time`, not the power `base ** exponent`, for the same reason as the next line.
- ErrorPolicy.ExponentialBackOffErrorPolicy.AcceptError: returns the exponent `factor * errors`, not `base ** exponent`. Real powers are outside Dafny's arithmetic, so "the sleep time strictly grows for `base > 1`" is stated for the exponent only.
- `accept_error`'s `error` argument is not used by the source and is not modelled.
- Algo.SqrtComparison: the square root itself is not computed. `LongThreadFires` compares the value under the root with 0.25 squared, and this lemma shows the two comparisons agree.
- Floating point: every time, mean and deviation is an exact `real`, so float rounding is not modelled.
- Algo.Evaluate: takes one `now` for a whole evaluation, while the source calls `time.time()` once per Delay leaf.
- Algo.DefaultAlgo: builds a fresh gate on each call. The source builds one shared rule when the module loads and returns that object every time. Dafny has no module-level mutable state.
- `HighWordCountAlgo` has no `send_context_message`, so it cannot be instantiated; the rule datatype has no constructor for it.
- Rule sequences are Dafny sequences. A one-shot Python iterable, which a second evaluation would find empty, is not modelled.
- Database.DictDatabase.Get: requires the key to be present. The source raises KeyError, and the oracle reads only keys it has initialized.
- `Database.close` does nothing in the source and is not modelled.
- The store is untyped in the source. The model tags the two slots (`Slot`), and the oracle's constructor requires that any existing entry under a slot's key holds the matching kind of list.
- The source aliases the stored counts list and `counts` in `_add_counts`. The model writes the new sequence back as a value, which gives the same final state.
- Messages: the record's constructor is the `Message` datatype constructor, which stores its four fields unchanged. Field types are not checked; a post is reduced to the three entries the conversion reads.
- The host loop, configuration loading, credentials, directory helpers, the server client (`__init__`, `provide_messages`, `send_message`), and the choice of reply text are I/O and orchestration, and are not part of this model.
