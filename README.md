# ReasonBot reply dispatch: a Dafny model

ReasonBot watches its Twitter mentions and answers each new one with a reply
from a language model. This project models the two deterministic parts of it
and proves what they promise:

- **The reply composer** (`replier.py`). `_build_prompt` assembles the
  instruction prompt from the analyzer's context. It always gives four base
  instructions: the reply tone (default `calm`), the 50-word limit, no
  moralizing, and cause-effect reasoning. It adds up to three conditional
  ones: acknowledge hateful language, highlight factual contradictions, and
  defuse the tension. The tone instruction reads `Respond in a <tone> tone`
  (replier.py:58), and the three conditional ones are added at
  replier.py:64-73. It joins them with `"; "` and ends with the tweet
  text. `generate_reply` returns a fixed fallback when no OpenAI key is set,
  the model's answer when the call succeeds, and a second fixed fallback
  when the call raises.
- **The dispatcher** (`bot.py`). `dispatch` runs one pass over a batch of
  mentions:
  - a cooldown gate;
  - an abort when nothing is fetched;
  - an abort when any of the five posting credentials is missing;
  - a loop that skips IDs already processed and catches each mention's
    failure. An ID is marked processed, then appended to the cache file,
    only after its reply was posted.

Modules:

- `Optional` (option.dfy) holds the optional value used for dictionary
  lookups and environment variables.
- `Replier` (replier.dfy) holds the context record, the instruction list,
  Python's `str.join`, the prompt and `generate_reply`.
- `Bot` (bot.dfy) holds the collaborators' behaviour as data and
  `HandleAll`, the loop's specification over one batch. Its lemmas state the
  skip, duplicate, order, isolation and replay guarantees. The `Dispatcher`
  class holds the processed set, the posted replies and the cache file's
  lines. Its `Dispatch`, `ReplyToBatch` and `HandleOne` methods are proved against
  `HandleAll` and its one-step `HandleMention`.

The collaborators this model does not cover are inputs to it:

- the analyzer (`analyze_context`), as an `Analysis`;
- the rate limiter's answer, as `mustWait`;
- the language model's final outcome, as a `Completion`;
- whether `create_tweet` returns and whether `save_processed_id` appends,
  as fields of an `Attempt`;
- the mentions endpoint's `data`;
- the environment variables, as an `Env` record.

## Model

| member | source | states |
|---|---|---|
| `Replier.ReplyTone` | replier.py:56 | the reply tone is the context's `reply_tone`, and `calm` when the key is absent |
| `Replier.FlagsSlur` | replier.py:64 | definition of the slur condition (`contains_slur` is true); its role is stated by `Replier.Instructions` |
| `Replier.FlagsFalsehood` | replier.py:67-68 | definition of the contradictions condition (the ideology is `conspiracy` or `extremist`); its role is stated by `Replier.Instructions` |
| `Replier.FlagsHostility` | replier.py:71-72 | definition of the defuse condition (the emotion is `anger` or `rage`, or the tone is `aggressive`); its role is stated by `Replier.Instructions` |
| `Replier.Instructions` | replier.py:56-73 | 4 to 7 instructions; the first four are tone, 50 words, no moralizing and cause-effect, in that order; the slur, contradictions and defuse instructions are each present iff `contains_slur` is true, iff the ideology is `conspiracy` or `extremist`, iff the emotion is `anger` or `rage` or the tone is `aggressive`; the conditional ones come after the base ones, in the order slur, contradictions, defuse |
| `Replier.Join` | replier.py:75 | definition of `"; ".join`; its properties are stated by `Replier.JoinAppend`, `Replier.JoinContainsEach`, `Replier.JoinFour` and `Replier.BodyText` |
| `Replier.JoinAppend` | replier.py:75 | joining a concatenation of two non-empty lists puts one separator between the two joined halves |
| `Replier.JoinContainsEach` | replier.py:75 | every instruction occurs verbatim in the joined instruction text |
| `Replier.OpeningText` | replier.py:57-62 | the prompt opens with `You are ReasonBot. ` followed by the tone instruction, then the other three base instructions, each after `; ` |
| `Replier.BodyText` | replier.py:64-75 | the joined instruction text is the joined base instructions followed by each conditional instruction whose condition holds, each after `; `, in the order slur, contradictions, defuse, and nothing else |
| `Replier.BuildPrompt` | replier.py:57-76 | the prompt is exactly `You are ReasonBot. `, the four base instructions separated by `; `, each flagged conditional instruction after `; ` (slur, contradictions, defuse), then `.\nTweet: ` and the tweet text verbatim; so it starts with the fixed opening, ends with the tweet, and contains every instruction of the list |
| `Replier.GenerateReply` | replier.py:98-117 | without a (non-empty) key the reply is `ReasonBot cannot respond right now.` and no prompt is sent; with a key the prompt built for the model is exactly `BuildPrompt` of the context and tweet, and the reply is the model's content, or `ReasonBot encountered an error and cannot reply.` when the call raises or the response has no content |
| `Bot.CooldownSet` | bot.py:90 | definition of the truthiness of `cooldown` (set and non-zero); its role is stated by `Bot.Dispatcher.Dispatch` |
| `Bot.CanPost` | bot.py:102-110 | definition of `all(creds.values())` over the five posting credentials; its role is stated by `Bot.Dispatcher.Dispatch` |
| `Bot.CheckMentions` | bot.py:48-70 | no mentions without the bearer token and user ID; with both set, the result is the response's data whenever it has any, and any non-empty result is exactly that data |
| `Bot.HandleMention` | bot.py:117-127 | definition of one iteration of the loop; its properties are stated by `Bot.HandleAllStep` and `Bot.Dispatcher.HandleOne` |
| `Bot.HandleAll` | bot.py:116-127 | definition of the loop over one batch; its properties are stated by the `Bot` lemmas below and it is the specification of `Bot.Dispatcher.ReplyToBatch` and `Bot.Dispatcher.Dispatch` |
| `Bot.ProcessedAfterPost` | bot.py:120-125 | the processed set only grows during a pass, and the only IDs it gains are those of mentions whose reply was posted |
| `Bot.NoDuplicateReplies` | bot.py:116-124 | no reply goes to an ID that was already processed when the pass began, and no ID gets two replies in one pass, even when the batch repeats it |
| `Bot.RepliesInFetchOrder` | bot.py:116-125 | the replied IDs are a subsequence of the fetched IDs in fetch order, and the IDs appended to the cache are a subsequence of the replied IDs |
| `Bot.SavedWhenAppended` | bot.py:124-125 | when every save appends, the cache receives exactly the replied IDs, in reply order |
| `Bot.RepliesAnswerMentions` | bot.py:120-124 | every reply answers a fetched mention whose analysis and post returned, with the text `generate_reply` produced for that mention |
| `Bot.PostedPrefix` | bot.py:116-125 | replies posted while handling a prefix of the batch are never retracted: they are a prefix of the pass's posted replies |
| `Bot.NewSuccessfulMentionIsAnswered` | bot.py:116-127 | a mention whose ID was not processed when the pass began and whose analysis and post return gets a reply to its ID; when no earlier mention with that ID succeeded, that reply carries the text `generate_reply` produced for this mention |
| `Bot.IneffectiveMentionIsInvisible` | bot.py:116-127 | a mention whose analysis or post raised, or whose ID was already processed when the loop reached it, leaves the pass exactly as if it were not in the batch, so later mentions are handled as usual |
| `Bot.ProcessedBatchIsIdle` | bot.py:116-118 | a batch whose IDs are all processed posts nothing and changes neither the set nor the cache |
| `Bot.ReplayPostsNoRepeat` | bot.py:94-125 | when every save of the first pass appended, a second pass, started from the cache the first pass left, posts no reply to an ID the first pass replied to |
| `Bot.Dispatcher.constructor` | bot.py:94 | the processed set starts as the set of the cache file's lines |
| `Bot.Dispatcher.HandleOne` | bot.py:117-127 | one iteration: a processed ID or a failed analysis or post changes nothing; otherwise the reply is posted, the ID added to the set, and appended to the cache when the save appends; every cached ID stays in the set |
| `Bot.Dispatcher.ReplyToBatch` | bot.py:116-127 | the loop leaves the processed set, the posted replies and the cache lines exactly as `HandleAll` prescribes from the set it started with, and keeps every cached ID in the set |
| `Bot.Dispatcher.Dispatch` | bot.py:73-127 | a set, non-zero cooldown with a "wait" answer ends the pass with nothing changed, and nothing else does; an empty fetch, or any missing posting credential, ends it with the set reloaded from the cache and no post or append; otherwise the posts and appends are exactly those of `HandleAll`, in order; every cached ID stays in the processed set |

## Left out

- The Tweepy and OpenAI clients, and the exponential-backoff retries of
  `_chat_completion` (replier.py:19-33), are left out. The model sees only
  the final outcome of the model call (`Completion`).
- The `.strip()` on the model's answer is left out. The `Completion` content
  stands for the already-trimmed text, because the answer's text is an
  external result.
- `load_dotenv`, `load_env` and `get_env_var` are left out: environment
  reading is an `Env` record, and utils.py's helpers are not part of this
  model. A value counts as present when it is set and non-empty.
- `analyze_context` is left out: analyzer.py is not part of this model, so its
  result, or its exception, is an input.
- `is_rate_limited` and its timestamp file are left out: its answer is an
  input, and the model does not record the timestamp it writes.
- `load_processed_ids` is modelled as the set of the cache file's lines. Its
  handling of unreadable files is not modelled, because the helper is not
  part of this model.
- `save_processed_id` is modelled as appending or not (`saveAppends`). A save
  that raises after the in-memory update has the same effect as one that
  does not append, because the loop's handler catches it.
- The `count` argument is left out. It only bounds what the mentions endpoint
  returns, which is already an input.
- Printed diagnostics and the `__main__` entry point are left out.
- Context values other than strings for tone, ideology, emotion and reply
  tone, and a boolean for `contains_slur`, are left out. Examples are an
  unhashable ideology that raises inside the `try`, or a non-string reply
  tone formatted by the f-string.
- `Bot.Dispatcher.Dispatch`: a `create_tweet` call that raises is treated as
  not having posted. What a failed call did on Twitter is not visible to the
  code.
- `Bot.Dispatcher.Dispatch`: `generate_reply` is modelled as never raising.
  In the source, the only code outside its `try` is the environment loading
  in utils.py, which is not part of this model.
- A Tweepy call that raises outside any `try` ends `dispatch` with an
  exception, which has no `PassEnd`. This covers the mentions fetch
  (bot.py:60-63, called at bot.py:96) and `tweepy.Client(**creds)`
  (bot.py:114). The model assumes both return. Either exception leaves the
  same state as a fetch with `data == None`: the set loaded from the cache,
  nothing posted and nothing appended.
- `Replier.GenerateReply`: when `openai.OpenAI(...)` raises (replier.py:108)
  before the prompt is built, the model still records the built prompt as
  `request`; the reply text, the error fallback, is the same.
