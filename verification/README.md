# Joke-bot pipelines in Dafny

This project models the core of a pair of command-line joke bots. Each bot chains
calls to a hosted chat model through a fixed graph of nodes.

- **Memory variant** (`src/multi_agent_joke_bot_memory.py`). The chain is
  `tell_joke → critic → rewriter → memory`, over one state dict that every node
  updates and returns whole. A process-wide `memory_store` list remembers the
  jokes told so far:
  - a joke already in the store is wrapped in a "reused joke avoided" notice
    instead of being stored again;
  - the critic reads a humor score from the first stand-alone number of one or
    two digits in its reply (5 if there is none);
  - the rewriter skips the model for scores of 7 and above.
- **Three-node variant** (`src/multi_agent_joke_bot.py`). The chain is
  `joke_gen → critic → rewriter`. Each node returns a partial update holding only
  its own key, and the graph merges that update into the state. Empty replies are
  replaced by fixed placeholder texts. The critic and the rewriter skip the model
  when there is no joke.

Modelling choices:

- The model client is abstracted away. Each node takes the model's reply as a
  parameter and records the request it would have sent in a request log
  (`ModelClient.Request`). A request is its purpose plus the state value put into
  the prompt: the topic, or the joke. The number of model calls is the length of
  that log.
- The global store is passed in and returned explicitly (`MemoryBot.Step`).
- A run of the command loop is `MemoryBot.Session`: a sequence of pipeline
  invocations that share one store.
- `MemoryBot.State` has one optional field per dict key. The dict is passed
  along whole.
- `SimpleBot.Update` is a node's partial return value. `SimpleBot.Merge` is the
  merge rule: returned keys overwrite, every other key keeps its value.
- `tell_joke` reads `state["topic"]` with no default. A missing topic is modelled
  as `Failure(MissingKey("topic"))`, which stops the run.

Files:

- `wrappers.dfy`: `Option` and `Result`.
- `text.dfy`: Python's `str.strip()`, with the exact `str.isspace()` character set.
- `score.dfy`: the scan `re.search(r"(\b\d{1,2}\b)", ...)` and `int(...)`.
- `model_client.dfy`: the request log.
- `memory_bot.dfy`: the four-node pipeline, its graph and the store across a session.
- `simple_bot.dfy`: the three-node pipeline with partial updates.
- `scenarios.dfy`: worked examples, proved: sample critiques and their scores, the "cats" pipeline run, a repeated joke.

The memory variant differs from the three-node variant in three ways:

- It has no fallback for an empty model reply. An empty joke is stored like any
  other, and `critique` and `rewritten` may be empty.
- Its critic and rewriter have no "no joke" short cut. They call the model even
  when the joke is empty.
- Its humor score is not limited to 0..10. Any stand-alone one- or two-digit
  number is taken as it is, so the score lies in 0..99. (The three-node variant
  has no score at all.)

## Model

| member | source | states |
|---|---|---|
| Wrappers.Option.GetOr | src/multi_agent_joke_bot_memory.py:43 | `dict.get(key, default)`: the stored value when the key is present, the default otherwise |
| Text.Strip | src/multi_agent_joke_bot_memory.py:29 | `.strip()`: the result is a slice of the input with only white space cut off both ends; it has no white space at either end and is empty exactly when the input is all white space |
| Text.StripPadded | src/multi_agent_joke_bot.py:21 | stripping is determined by its characterisation: white space around a stripped text is removed and nothing else |
| Text.StripIdempotent | src/multi_agent_joke_bot_memory.py:51 | stripping an already stripped reply changes nothing |
| Score.MatchLengthUnique | src/multi_agent_joke_bot_memory.py:55 | at one position the pattern `\b\d{1,2}\b` matches with at most one length, so greedy `{1,2}` never chooses |
| Score.FindRun | src/multi_agent_joke_bot_memory.py:55 | `re.search` scan: a result is a match, and no match starts earlier; no result means no match anywhere |
| Score.DecimalValue | src/multi_agent_joke_bot_memory.py:56 | `int()` of a string of ASCII digits is a number below 10 to the power of its length, so at most 99 for a matched run |
| Score.HumorScore | src/multi_agent_joke_bot_memory.py:55-56 | the score is the value of the leftmost stand-alone 1–2 digit run, 5 when there is none, always in 0..99 and not clamped to 10 |
| MemoryBot.RepeatNotice | src/multi_agent_joke_bot_memory.py:33 | the notice carries the fixed prefix and suffix, and the repeated joke is exactly the text between them |
| MemoryBot.TellJoke | src/multi_agent_joke_bot_memory.py:16-38 | missing topic fails; a repeated trimmed reply leaves the store unchanged and yields the notice; a new one is appended and yields itself; the store only grows at the end, by at most one, stays duplicate-free; `previousJokes` set only when absent; one request about the topic |
| MemoryBot.CriticNode | src/multi_agent_joke_bot_memory.py:41-60 | critique is the trimmed reply; score in 0..99, from the first match or 5; one request about the joke; other fields unchanged |
| MemoryBot.RewriterNode | src/multi_agent_joke_bot_memory.py:63-77 | a score of 7 or more (default 5) gives the fixed text and no request; below 7 one request and the trimmed reply; other fields unchanged |
| MemoryBot.RewriterSkipsModel | src/multi_agent_joke_bot_memory.py:69-70 | when the rewrite is skipped, the result does not depend on the model's reply |
| MemoryBot.MemoryNode | src/multi_agent_joke_bot_memory.py:80-83 | `memory` becomes a snapshot of the store; other fields unchanged |
| MemoryBot.MemoryNodeIdempotent | src/multi_agent_joke_bot_memory.py:82 | recording the memory twice without a new joke gives the same state |
| MemoryBot.Apply | src/multi_agent_joke_bot_memory.py:91-94 | running one registered node: only tell_joke can fail (missing topic) or change the store (dedup rule); the topic is kept; a node adds at most one request; the memory node publishes the store |
| MemoryBot.RunFrom | src/multi_agent_joke_bot_memory.py:89-101 | edge-following from a node to END: fails only at tell_joke when the topic is missing; keeps the topic; only tell_joke changes the store, by the dedup rule; each node adds at most one request; the walk ends with `memory` equal to the store |
| MemoryBot.Invoke | src/multi_agent_joke_bot_memory.py:117 | `app.invoke`: fails exactly when the topic is missing; otherwise keeps the topic, applies the dedup rule to the store, and publishes the final store as `memory`; the full outcome is stated by `InvokeOutcome` |
| MemoryBot.InvokeIsSequential | src/multi_agent_joke_bot_memory.py:89-101 | the chain order: following the edges from the entry point is the same as applying tell_joke, critic, rewriter and memory one after the other to one state |
| MemoryBot.InvokeOutcome | src/multi_agent_joke_bot_memory.py:89-102 | a run fails exactly when the topic is missing; otherwise it keeps the topic, sets joke, critique, score and rewrite as each node decides, publishes the final store as `memory`, and makes two requests for scores of 7 or more and three otherwise |
| MemoryBot.RoundStore | src/multi_agent_joke_bot_memory.py:112-117 | the store after one loop iteration: unchanged when the trimmed joke reply is already stored, else that reply appended; more in `RoundStoreAppends` |
| MemoryBot.Session | src/multi_agent_joke_bot_memory.py:112-117 | the loop reusing one `memory_store`: the store keeps its old contents as a prefix and grows by at most one joke per iteration; more in `SessionStore` |
| MemoryBot.RoundStoreAppends | src/multi_agent_joke_bot_memory.py:29-37 | one run keeps the old store as a prefix, adds at most its trimmed joke reply, keeps it duplicate-free, and afterwards holds exactly the old jokes plus that reply |
| MemoryBot.SessionStore | src/multi_agent_joke_bot_memory.py:9-37 | over any number of runs the store is append-only, grows by at most one per run, has no duplicates, and holds exactly its initial jokes plus the trimmed joke replies |
| MemoryBot.SessionFromEmpty | src/multi_agent_joke_bot_memory.py:9 | from the empty store, the store is the set of distinct trimmed joke replies, without duplicates |
| MemoryBot.SessionStoresNoNotice | src/multi_agent_joke_bot_memory.py:31-35 | a repeat notice never enters the store unless the model itself replied with notice-shaped text |
| SimpleBot.Merge | src/multi_agent_joke_bot.py:45-54 | a returned key overwrites, every other key keeps its value |
| SimpleBot.MergeOwnKey | src/multi_agent_joke_bot.py:22-42 | merging a node's one-key update (`joke`, `critique` or `rewritten`) sets that key and leaves every other key as it was |
| SimpleBot.OrElse | src/multi_agent_joke_bot.py:22 | `text or fallback` is never empty: the text if non-empty, else the fallback |
| SimpleBot.GenerateJoke | src/multi_agent_joke_bot.py:17-22 | updates only `joke`, always non-empty: the trimmed reply, or the placeholder; one request about the topic or "random stuff" |
| SimpleBot.CritiqueJoke | src/multi_agent_joke_bot.py:25-32 | updates only `critique`, always non-empty; no joke gives the placeholder with no request; otherwise one request about the joke and the trimmed reply or its placeholder |
| SimpleBot.RewriteJoke | src/multi_agent_joke_bot.py:35-42 | updates only `rewritten`, always non-empty; no joke gives the placeholder with no request; otherwise one request about the joke and the trimmed reply or its placeholder |
| SimpleBot.RunFrom | src/multi_agent_joke_bot.py:45-54 | edge-following from a node to END: the topic is kept, only joke_gen sets the joke, the walk ends with a non-empty `rewritten`, and each node adds at most one request |
| SimpleBot.Invoke | src/multi_agent_joke_bot.py:70 | `compiled.invoke`: keeps the topic, sets the joke to the trimmed reply or its placeholder, leaves `rewritten` non-empty, at most three requests; the full outcome is stated by `InvokeOutcome` |
| SimpleBot.InvokeIsSequential | src/multi_agent_joke_bot.py:51-54 | the chain order: following the edges from the entry point is the same as applying joke_gen, critic and rewriter one after the other, merging each update |
| SimpleBot.InvokeOutcome | src/multi_agent_joke_bot.py:44-56 | from any state a run keeps the topic, sets non-empty joke, critique and rewrite, and makes exactly three requests, so the no-joke short cuts never fire |
| Scenarios.ScoreOfSentence | src/multi_agent_joke_bot_memory.py:55-56 | "I'd give this an 8 out of 10 for cleverness" scores 8 |
| Scenarios.ScoreOfFraction | src/multi_agent_joke_bot_memory.py:55-56 | "3/10, too short." scores 3 |
| Scenarios.ScoreNotClamped | src/multi_agent_joke_bot_memory.py:55-56 | "Solid 42." scores 42 |
| Scenarios.ScoreWithoutDigits | src/multi_agent_joke_bot_memory.py:56 | text without digits scores 5 |
| Scenarios.ScoreRejectsLongAndGluedRuns | src/multi_agent_joke_bot_memory.py:55 | "100" and "a8" contain no score |
| Scenarios.RepeatedJokeIsFlagged | src/multi_agent_joke_bot_memory.py:29-33 | a reply equal, after trimming, to a stored joke is flagged and not stored again |
| Scenarios.CatsScenario | src/multi_agent_joke_bot_memory.py:96-101 | topic "cats" with a critique scoring 3: the store gains the joke, the rewriter asks the model, three requests in all |

## Left out

- The model client (`ChatGroq`, `model.invoke`) is left out. Its replies are parameters, and its failures are not modelled: the source does not catch them, and a failure ends the run.
- The `hasattr(response, "content")` / `str(response)` fallback in `src/multi_agent_joke_bot.py` is left out. It is library plumbing; every reply is taken to be text.
- Prompt text is not modelled. A request records only its purpose and the value put into the prompt.
- The LangGraph engine (`StateGraph`, `compile`, `invoke`) is not modelled. It appears only as explicit edge-following over the declared nodes and edges.
- The interactive loop, `print`, `input` and the exit/quit sentinels are left out. They are I/O. A session is modelled as a sequence of rounds.
- `src/joke_bot.py` is not part of this model. It is a single pass-through node.
- Python aliasing is not modelled. `previous_jokes` and `memory` refer to the live `memory_store` list in the source; here they are value snapshots. So a later append is not visible through an earlier run's `memory`. Within one run the difference shows too: in the source, `previous_jokes` is the live list, so the append of a new joke at line 35 of `src/multi_agent_joke_bot_memory.py` shows up in it and it ends equal to `memory`. Here `previousJokes` keeps the store as it was before the append.
- Score.HumorScore: `\d` and `\b` are restricted to ASCII. Only `0`–`9` are digits, and word characters are ASCII letters, digits and `_`. Python's `\d` and `\w` also accept non-ASCII digits and letters, so the two can differ: "é8" has no match in Python and scores 5, but scores 8 in the model.
- The state is limited to the keys the nodes use. The source's dict may carry any other keys; those would pass through unchanged.
