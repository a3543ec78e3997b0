/** The dispatcher of bot.py: one pass over a batch of mentions, with the
    cooldown gate, the early aborts, the duplicate filter and per-mention
    failure isolation. Twitter, the language model, the analyzer, the rate
    limiter and the ID cache helpers are collaborators whose answers are
    inputs to the model. */
module Bot {
  import opened Optional
  import opened Replier

  /** A fetched mention; `id` is its `str(tweet.id)`. */
  datatype Mention = Mention(id: string, text: string)

  /** A `create_tweet` call that returned normally. */
  datatype Reply = Reply(text: string, inReplyTo: string)

  /** What `analyze_context` does for one mention. */
  datatype Analysis = Analyzed(context: Context) | AnalysisRaised

  /** How the collaborators behave while one mention is handled: the
      analyzer, the language model behind `generate_reply`, whether
      `create_tweet` returns normally, and whether `save_processed_id`
      appends the line to the cache file (it may fail, or raise after
      the in-memory set was updated). */
  datatype Attempt = Attempt(analysis: Analysis, completion: Completion, postReturns: bool, saveAppends: bool)

  /** The environment variables `dispatch` and `check_mentions` read. */
  datatype Env = Env(
    bearerToken: Option<string>,
    userId: Option<string>,
    apiKey: Option<string>,
    apiSecret: Option<string>,
    accessToken: Option<string>,
    accessSecret: Option<string>,
    openAiKey: Option<string>)

  /** Where a pass stopped. */
  datatype PassEnd = CooledDown | NoMentions | MissingCredentials | Finished

  /** Python truthiness of `cooldown: int | None`. */
  predicate CooldownSet(cooldown: Option<int>) {
    cooldown.Some? && cooldown.value != 0
  }

  /** All five posting credentials are present and non-empty. */
  predicate CanPost(env: Env) {
    HasValue(env.bearerToken) && HasValue(env.apiKey) && HasValue(env.apiSecret)
    && HasValue(env.accessToken) && HasValue(env.accessSecret)
  }

  /** `check_mentions`: nothing without the bearer token and user ID,
      otherwise the response's `data`, or nothing when it is None. */
  function CheckMentions(env: Env, data: Option<seq<Mention>>): (r: seq<Mention>)
    ensures !HasValue(env.bearerToken) || !HasValue(env.userId) ==> r == []
    ensures r != [] ==> HasValue(env.bearerToken) && HasValue(env.userId) && data == Some(r)
    ensures HasValue(env.bearerToken) && HasValue(env.userId) && data.Some? ==> r == data.value
  {
    if !HasValue(env.bearerToken) || !HasValue(env.userId) then [] else data.GetOr([])
  }

  /** The set of IDs `load_processed_ids` reads from the cache file's lines. */
  function LoadIds(lines: seq<string>): set<string> {
    set line | line in lines
  }

  /** The IDs replied to, in posting order. */
  function RepliedIds(posted: seq<Reply>): seq<string> {
    seq(|posted|, k requires 0 <= k < |posted| => posted[k].inReplyTo)
  }

  function MentionIds(ms: seq<Mention>): seq<string> {
    seq(|ms|, k requires 0 <= k < |ms| => ms[k].id)
  }

  /** The mention gets a reply when analysis and posting both return normally. */
  predicate Succeeds(a: Attempt) {
    a.analysis.Analyzed? && a.postReturns
  }

  /** The text `generate_reply` produces for an analyzed mention. */
  function ReplyText(m: Mention, a: Attempt, openAiKey: Option<string>): string
    requires a.analysis.Analyzed?
  {
    GenerateReply(a.analysis.context, m.text, openAiKey, a.completion).text
  }

  /** The in-memory processed set, the replies posted and the lines appended
      to the cache file during one pass. */
  datatype PassState = PassState(processed: set<string>, posted: seq<Reply>, saved: seq<string>)

  /** One iteration of the loop in `dispatch`. */
  function HandleMention(s: PassState, m: Mention, a: Attempt, openAiKey: Option<string>): PassState {
    if m.id in s.processed || !Succeeds(a) then s
    else PassState(
      s.processed + {m.id},
      s.posted + [Reply(ReplyText(m, a, openAiKey), m.id)],
      if a.saveAppends then s.saved + [m.id] else s.saved)
  }

  /** A batch of one mention is one iteration from the loaded set. */
  lemma SingleBatch(loaded: set<string>, m: Mention, a: Attempt, key: Option<string>)
    ensures HandleAll(loaded, [m], [a], key) == HandleMention(PassState(loaded, [], []), m, a, key)
  {
    assert [m][..0] == [] && [a][..0] == [];
  }

  /** An iteration does the same thing whatever was posted and saved before the pass. */
  lemma HandleMentionShift(s: PassState, posted0: seq<Reply>, saved0: seq<string>, m: Mention, a: Attempt, key: Option<string>)
    ensures var t := HandleMention(s, m, a, key);
      HandleMention(PassState(s.processed, posted0 + s.posted, saved0 + s.saved), m, a, key)
        == PassState(t.processed, posted0 + t.posted, saved0 + t.saved)
  {
    if m.id !in s.processed && Succeeds(a) {
      assert posted0 + s.posted + [Reply(ReplyText(m, a, key), m.id)] == posted0 + (s.posted + [Reply(ReplyText(m, a, key), m.id)]);
      assert saved0 + s.saved + [m.id] == saved0 + (s.saved + [m.id]);
    }
  }

  /** The loop of `dispatch` over a batch, from the loaded set `loaded`. */
  function HandleAll(loaded: set<string>, ms: seq<Mention>, attempts: seq<Attempt>, openAiKey: Option<string>): PassState
    requires |attempts| == |ms|
    decreases |ms|
  {
    if ms == [] then PassState(loaded, [], [])
    else
      var n := |ms| - 1;
      HandleMention(HandleAll(loaded, ms[..n], attempts[..n], openAiKey), ms[n], attempts[n], openAiKey)
  }

  /** Extending the handled prefix by one mention is one more loop iteration. */
  lemma HandleAllStep(loaded: set<string>, ms: seq<Mention>, attempts: seq<Attempt>, key: Option<string>, i: nat)
    requires |attempts| == |ms| && i < |ms|
    ensures HandleAll(loaded, ms[..i + 1], attempts[..i + 1], key)
      == HandleMention(HandleAll(loaded, ms[..i], attempts[..i], key), ms[i], attempts[i], key)
  {
    assert ms[..i + 1][..i] == ms[..i] && attempts[..i + 1][..i] == attempts[..i];
  }

  /** `xs` is `ys` with some elements left out, order kept. */
  ghost predicate IsSubsequence(xs: seq<string>, ys: seq<string>)
    decreases |ys|
  {
    if ys == [] then xs == []
    else
      (xs != [] && xs[|xs| - 1] == ys[|ys| - 1] && IsSubsequence(xs[..|xs| - 1], ys[..|ys| - 1]))
      || IsSubsequence(xs, ys[..|ys| - 1])
  }

  /** The processed set only grows, and grows by exactly the IDs replied to. */
  lemma {:induction false} ProcessedAfterPost(loaded: set<string>, ms: seq<Mention>, attempts: seq<Attempt>, key: Option<string>)
    requires |attempts| == |ms|
    ensures loaded <= HandleAll(loaded, ms, attempts, key).processed
    ensures HandleAll(loaded, ms, attempts, key).processed == loaded + LoadIds(RepliedIds(HandleAll(loaded, ms, attempts, key).posted))
    decreases |ms|
  {
    if ms != [] {
      var n := |ms| - 1;
      var s := HandleAll(loaded, ms[..n], attempts[..n], key);
      ProcessedAfterPost(loaded, ms[..n], attempts[..n], key);
      var s' := HandleMention(s, ms[n], attempts[n], key);
      if s' != s {
        assert RepliedIds(s'.posted) == RepliedIds(s.posted) + [ms[n].id];
      }
    }
  }

  /** No reply goes to an ID that was loaded as processed, and no ID gets two
      replies in one pass, even when the batch repeats it. */
  lemma {:induction false} NoDuplicateReplies(loaded: set<string>, ms: seq<Mention>, attempts: seq<Attempt>, key: Option<string>)
    requires |attempts| == |ms|
    ensures forall k :: 0 <= k < |HandleAll(loaded, ms, attempts, key).posted| ==>
      HandleAll(loaded, ms, attempts, key).posted[k].inReplyTo !in loaded
    ensures forall i, j :: 0 <= i < j < |HandleAll(loaded, ms, attempts, key).posted| ==>
      HandleAll(loaded, ms, attempts, key).posted[i].inReplyTo != HandleAll(loaded, ms, attempts, key).posted[j].inReplyTo
    decreases |ms|
  {
    if ms != [] {
      var n := |ms| - 1;
      var s := HandleAll(loaded, ms[..n], attempts[..n], key);
      NoDuplicateReplies(loaded, ms[..n], attempts[..n], key);
      ProcessedAfterPost(loaded, ms[..n], attempts[..n], key);
      var p := s.posted;
      assert forall k :: 0 <= k < |p| ==> p[k].inReplyTo in s.processed by {
        forall k | 0 <= k < |p| ensures p[k].inReplyTo in s.processed {
          assert RepliedIds(p)[k] == p[k].inReplyTo;
        }
      }
    }
  }

  /** Replies are posted in fetch order, and the cache file receives only IDs
      that were replied to, in the order of the replies. */
  lemma {:induction false} RepliesInFetchOrder(loaded: set<string>, ms: seq<Mention>, attempts: seq<Attempt>, key: Option<string>)
    requires |attempts| == |ms|
    ensures IsSubsequence(RepliedIds(HandleAll(loaded, ms, attempts, key).posted), MentionIds(ms))
    ensures IsSubsequence(HandleAll(loaded, ms, attempts, key).saved, RepliedIds(HandleAll(loaded, ms, attempts, key).posted))
    decreases |ms|
  {
    if ms != [] {
      var n := |ms| - 1;
      var s := HandleAll(loaded, ms[..n], attempts[..n], key);
      RepliesInFetchOrder(loaded, ms[..n], attempts[..n], key);
      var s' := HandleAll(loaded, ms, attempts, key);
      assert MentionIds(ms)[..n] == MentionIds(ms[..n]);
      if s' == s {
        SubsequenceOfLonger(RepliedIds(s.posted), MentionIds(ms));
      } else {
        assert RepliedIds(s'.posted)[..|s.posted|] == RepliedIds(s.posted);
        if attempts[n].saveAppends {
          assert s'.saved[..|s.saved|] == s.saved;
        } else {
          SubsequenceOfLonger(s.saved, RepliedIds(s'.posted));
        }
      }
    }
  }

  /** One unfolding of `IsSubsequence`: dropping the last element of the longer list. */
  lemma SubsequenceOfLonger(xs: seq<string>, ys: seq<string>)
    requires ys != [] && IsSubsequence(xs, ys[..|ys| - 1])
    ensures IsSubsequence(xs, ys)
  {
  }

  /** When every save appends, the cache file receives exactly the IDs
      replied to, so reloading it gives the pass's final processed set. */
  lemma {:induction false} SavedWhenAppended(loaded: set<string>, ms: seq<Mention>, attempts: seq<Attempt>, key: Option<string>)
    requires |attempts| == |ms|
    requires forall i :: 0 <= i < |attempts| ==> attempts[i].saveAppends
    ensures HandleAll(loaded, ms, attempts, key).saved == RepliedIds(HandleAll(loaded, ms, attempts, key).posted)
    decreases |ms|
  {
    if ms != [] {
      var n := |ms| - 1;
      SavedWhenAppended(loaded, ms[..n], attempts[..n], key);
    }
  }

  /** Every reply answers a mention of the batch whose analysis and post
      returned, with the text `generate_reply` produced for it. */
  lemma {:induction false} RepliesAnswerMentions(loaded: set<string>, ms: seq<Mention>, attempts: seq<Attempt>, key: Option<string>, k: nat)
    requires |attempts| == |ms|
    requires k < |HandleAll(loaded, ms, attempts, key).posted|
    ensures exists i :: (0 <= i < |ms| && Succeeds(attempts[i])
      && HandleAll(loaded, ms, attempts, key).posted[k] == Reply(ReplyText(ms[i], attempts[i], key), ms[i].id))
    decreases |ms|
  {
    var n := |ms| - 1;
    var s := HandleAll(loaded, ms[..n], attempts[..n], key);
    if k < |s.posted| {
      RepliesAnswerMentions(loaded, ms[..n], attempts[..n], key, k);
      var i :| 0 <= i < n && Succeeds(attempts[..n][i])
        && s.posted[k] == Reply(ReplyText(ms[..n][i], attempts[..n][i], key), ms[..n][i].id);
      assert ms[..n][i] == ms[i] && attempts[..n][i] == attempts[i];
    } else {
      assert Succeeds(attempts[n]);
    }
  }

  /** The replies posted while handling a prefix of the batch stay, in
      order, at the head of the pass's replies. */
  lemma {:induction false} PostedPrefix(loaded: set<string>, ms: seq<Mention>, attempts: seq<Attempt>, key: Option<string>, m: nat)
    requires |attempts| == |ms| && m <= |ms|
    ensures HandleAll(loaded, ms[..m], attempts[..m], key).posted <= HandleAll(loaded, ms, attempts, key).posted
    decreases |ms|
  {
    if m == |ms| {
      assert ms[..m] == ms && attempts[..m] == attempts;
    } else {
      var n := |ms| - 1;
      assert ms[..n][..m] == ms[..m] && attempts[..n][..m] == attempts[..m];
      PostedPrefix(loaded, ms[..n], attempts[..n], key, m);
    }
  }

  /** Every mention whose ID was not processed when the pass began, and whose
      analysis and post return, gets a reply, whatever happened to the
      mentions before it; the first such mention for an ID supplies the
      reply's text. */
  lemma NewSuccessfulMentionIsAnswered(loaded: set<string>, ms: seq<Mention>, attempts: seq<Attempt>, key: Option<string>, i: nat)
    requires |attempts| == |ms| && i < |ms|
    requires Succeeds(attempts[i]) && ms[i].id !in loaded
    ensures ms[i].id in RepliedIds(HandleAll(loaded, ms, attempts, key).posted)
    ensures (forall j :: 0 <= j < i && ms[j].id == ms[i].id ==> !Succeeds(attempts[j])) ==>
      Reply(ReplyText(ms[i], attempts[i], key), ms[i].id) in HandleAll(loaded, ms, attempts, key).posted
  {
    var id := ms[i].id;
    var s := HandleAll(loaded, ms[..i], attempts[..i], key);
    var full := HandleAll(loaded, ms, attempts, key).posted;
    HandleAllStep(loaded, ms, attempts, key, i);
    PostedPrefix(loaded, ms, attempts, key, i + 1);
    var next := HandleAll(loaded, ms[..i + 1], attempts[..i + 1], key).posted;
    if id in s.processed {
      ProcessedAfterPost(loaded, ms[..i], attempts[..i], key);
      var k :| 0 <= k < |s.posted| && RepliedIds(s.posted)[k] == id;
      assert full[k] == s.posted[k];
      assert RepliedIds(full)[k] == id;
      RepliesAnswerMentions(loaded, ms[..i], attempts[..i], key, k);
      var j :| 0 <= j < i && Succeeds(attempts[..i][j])
        && s.posted[k] == Reply(ReplyText(ms[..i][j], attempts[..i][j], key), ms[..i][j].id);
      assert ms[..i][j] == ms[j] && attempts[..i][j] == attempts[j];
      assert !(forall j' :: 0 <= j' < i && ms[j'].id == id ==> !Succeeds(attempts[j']));
    } else {
      var k := |s.posted|;
      assert next[k] == Reply(ReplyText(ms[i], attempts[i], key), id);
      assert full[k] == next[k];
      assert RepliedIds(full)[k] == id;
    }
  }

  function Remove<T>(xs: seq<T>, i: nat): seq<T>
    requires i < |xs|
  {
    xs[..i] + xs[i + 1..]
  }

  /** Removing an element before the last keeps the last element last. */
  lemma RemoveBeforeLast<T>(xs: seq<T>, i: nat)
    requires i < |xs| - 1
    ensures Remove(xs, i) == Remove(xs[..|xs| - 1], i) + [xs[|xs| - 1]]
  {
  }

  /** Two batches that end in the same state still do after the same mention. */
  lemma ExtendBoth(loaded: set<string>, xs: seq<Mention>, xa: seq<Attempt>, ys: seq<Mention>, ya: seq<Attempt>,
                   m: Mention, a: Attempt, key: Option<string>)
    requires |xa| == |xs| && |ya| == |ys|
    requires HandleAll(loaded, xs, xa, key) == HandleAll(loaded, ys, ya, key)
    ensures HandleAll(loaded, xs + [m], xa + [a], key) == HandleAll(loaded, ys + [m], ya + [a], key)
  {
    assert (xs + [m])[..|xs|] == xs && (xa + [a])[..|xs|] == xa;
    assert (ys + [m])[..|ys|] == ys && (ya + [a])[..|ys|] == ya;
  }

  /** Failure isolation: a mention whose analysis or post raised, or whose ID
      was already processed when the loop reached it, leaves the pass exactly
      as if it had not been in the batch. */
  lemma {:induction false} IneffectiveMentionIsInvisible(loaded: set<string>, ms: seq<Mention>, attempts: seq<Attempt>, key: Option<string>, i: nat)
    requires |attempts| == |ms| && i < |ms|
    requires !Succeeds(attempts[i]) || ms[i].id in HandleAll(loaded, ms[..i], attempts[..i], key).processed
    ensures HandleAll(loaded, ms, attempts, key) == HandleAll(loaded, Remove(ms, i), Remove(attempts, i), key)
    decreases |ms|
  {
    var n := |ms| - 1;
    if i == n {
      HandleAllStep(loaded, ms, attempts, key, i);
      assert ms[..n + 1] == ms && attempts[..n + 1] == attempts;
      assert Remove(ms, i) == ms[..n] && Remove(attempts, i) == attempts[..n];
    } else {
      assert ms[..n][..i] == ms[..i] && attempts[..n][..i] == attempts[..i];
      IneffectiveMentionIsInvisible(loaded, ms[..n], attempts[..n], key, i);
      RemoveBeforeLast(ms, i);
      RemoveBeforeLast(attempts, i);
      ExtendBoth(loaded, ms[..n], attempts[..n], Remove(ms[..n], i), Remove(attempts[..n], i), ms[n], attempts[n], key);
      assert ms[..n] + [ms[n]] == ms && attempts[..n] + [attempts[n]] == attempts;
    }
  }

  /** A pass whose every mention ID is already processed posts nothing and
      changes nothing. */
  lemma {:induction false} ProcessedBatchIsIdle(loaded: set<string>, ms: seq<Mention>, attempts: seq<Attempt>, key: Option<string>)
    requires |attempts| == |ms|
    requires forall i :: 0 <= i < |ms| ==> ms[i].id in loaded
    ensures HandleAll(loaded, ms, attempts, key) == PassState(loaded, [], [])
    decreases |ms|
  {
    if ms != [] {
      var n := |ms| - 1;
      ProcessedBatchIsIdle(loaded, ms[..n], attempts[..n], key);
    }
  }

  /** Replaying a batch from the cache a pass left behind, when every save
      appended, posts no second reply to any ID the first pass replied to. */
  lemma ReplayPostsNoRepeat(cache: seq<string>, ms: seq<Mention>, first: seq<Attempt>, ms2: seq<Mention>, second: seq<Attempt>, key: Option<string>)
    requires |first| == |ms| && |second| == |ms2|
    requires forall i :: 0 <= i < |first| ==> first[i].saveAppends
    ensures var pass1 := HandleAll(LoadIds(cache), ms, first, key);
      var pass2 := HandleAll(LoadIds(cache + pass1.saved), ms2, second, key);
      forall j, k :: 0 <= j < |pass1.posted| && 0 <= k < |pass2.posted| ==>
        pass1.posted[j].inReplyTo != pass2.posted[k].inReplyTo
  {
    var pass1 := HandleAll(LoadIds(cache), ms, first, key);
    SavedWhenAppended(LoadIds(cache), ms, first, key);
    var reloaded := LoadIds(cache + pass1.saved);
    NoDuplicateReplies(reloaded, ms2, second, key);
    forall j | 0 <= j < |pass1.posted| ensures pass1.posted[j].inReplyTo in reloaded {
      assert pass1.saved[j] == pass1.posted[j].inReplyTo;
      assert (cache + pass1.saved)[|cache| + j] == pass1.saved[j];
    }
  }

  /** The persistent side of the bot: the in-memory processed set of the
      current pass, the replies posted so far and the cache file's lines. */
  class Dispatcher {
    var processed: set<string>
    var posted: seq<Reply>
    var cache: seq<string>

    /** Every ID in the cache file is in the in-memory set. */
    ghost predicate Valid()
      reads this
    {
      LoadIds(cache) <= processed
    }

    constructor (cache: seq<string>)
      ensures Valid()
      ensures this.cache == cache && processed == LoadIds(cache) && posted == []
    {
      this.cache := cache;
      processed := LoadIds(cache);
      posted := [];
    }

    /** `dispatch`: `mustWait` is the rate limiter's answer, `data` what the
        mentions endpoint returned, `attempts` the collaborators' behaviour
        for each fetched mention. */
    method Dispatch(env: Env, cooldown: Option<int>, mustWait: bool, data: Option<seq<Mention>>, attempts: seq<Attempt>)
      returns (end: PassEnd)
      requires Valid()
      requires |attempts| == |CheckMentions(env, data)|
      modifies this
      ensures Valid()
      ensures end == CooledDown <==> CooldownSet(cooldown) && mustWait
      ensures end == CooledDown ==> processed == old(processed) && posted == old(posted) && cache == old(cache)
      ensures end == NoMentions <==> !(CooldownSet(cooldown) && mustWait) && CheckMentions(env, data) == []
      ensures end == MissingCredentials <==>
        !(CooldownSet(cooldown) && mustWait) && CheckMentions(env, data) != [] && !CanPost(env)
      ensures end == NoMentions || end == MissingCredentials ==>
        processed == LoadIds(old(cache)) && posted == old(posted) && cache == old(cache)
      ensures end == Finished ==>
        var s := HandleAll(LoadIds(old(cache)), CheckMentions(env, data), attempts, env.openAiKey);
        processed == s.processed && posted == old(posted) + s.posted && cache == old(cache) + s.saved
    {
      if CooldownSet(cooldown) && mustWait {
        return CooledDown;
      }
      processed := LoadIds(cache);
      var tweets := CheckMentions(env, data);
      if tweets == [] {
        return NoMentions;
      }
      if !CanPost(env) {
        return MissingCredentials;
      }
      ReplyToBatch(tweets, attempts, env.openAiKey);
      return Finished;
    }

    /** One iteration of the loop of `dispatch`: reply to `tweet` unless it is already processed. */
    method HandleOne(tweet: Mention, attempt: Attempt, openAiKey: Option<string>)
      requires Valid()
      modifies this
      ensures Valid()
      ensures var s := HandleMention(PassState(old(processed), old(posted), old(cache)), tweet, attempt, openAiKey);
        processed == s.processed && posted == s.posted && cache == s.saved
    {
      if tweet.id !in processed {
        match attempt.analysis
        case AnalysisRaised =>
        case Analyzed(context) =>
          var replyText := GenerateReply(context, tweet.text, openAiKey, attempt.completion).text;
          if attempt.postReturns {
            posted := posted + [Reply(replyText, tweet.id)];
            processed := processed + {tweet.id};
            if attempt.saveAppends {
              cache := cache + [tweet.id];
            }
          }
      }
    }

    /** The loop of `dispatch`: each mention not yet in the processed set is
        analyzed, answered and posted; only after the post returns is its ID
        added to the set and then to the cache file. */
    method ReplyToBatch(tweets: seq<Mention>, attempts: seq<Attempt>, openAiKey: Option<string>)
      requires Valid()
      requires |attempts| == |tweets|
      modifies this
      ensures Valid()
      ensures var s := HandleAll(old(processed), tweets, attempts, openAiKey);
        processed == s.processed && posted == old(posted) + s.posted && cache == old(cache) + s.saved
    {
      ghost var loaded, posted0, cache0 := processed, posted, cache;
      ghost var state := PassState(loaded, [], []);
      for i := 0 to |tweets|
        invariant state == HandleAll(loaded, tweets[..i], attempts[..i], openAiKey)
        invariant processed == state.processed
        invariant posted == posted0 + state.posted
        invariant cache == cache0 + state.saved
        invariant Valid()
      {
        HandleAllStep(loaded, tweets, attempts, openAiKey, i);
        HandleMentionShift(state, posted0, cache0, tweets[i], attempts[i], openAiKey);
        HandleOne(tweets[i], attempts[i], openAiKey);
        state := HandleMention(state, tweets[i], attempts[i], openAiKey);
      }
      assert tweets[..|tweets|] == tweets && attempts[..|tweets|] == attempts;
    }
  }

  /** A mention not yet processed gets the model's answer as its reply, and
      its ID is appended to the cache. */
  method ReplyOnceScenario() {
    var d := new Dispatcher([]);
    var env := Env(Some("b"), Some("u"), Some("k"), Some("s"), Some("t"), Some("a"), Some("o"));
    var m := Mention("1", "hi");
    var a := Attempt(Analyzed(Context(None, None, None, None, Some("calm"))), Answered(Some("ok")), true, true);
    assert CheckMentions(env, Some([m])) == [m];
    SingleBatch(LoadIds([]), m, a, env.openAiKey);
    var end := d.Dispatch(env, None, false, Some([m]), [a]);
    assert end == Finished;
    assert d.posted == [Reply("ok", "1")] && d.cache == ["1"];
  }

  /** A restart whose cache holds the mention's ID posts nothing more. */
  method ReplayScenario() {
    var d := new Dispatcher(["1"]);
    var env := Env(Some("b"), Some("u"), Some("k"), Some("s"), Some("t"), Some("a"), Some("o"));
    var m := Mention("1", "hi");
    var a := Attempt(Analyzed(Context(None, None, None, None, Some("calm"))), Answered(Some("ok")), true, true);
    assert CheckMentions(env, Some([m])) == [m];
    ProcessedBatchIsIdle(LoadIds(["1"]), [m], [a], env.openAiKey);
    var end := d.Dispatch(env, None, false, Some([m]), [a]);
    assert end == Finished;
    assert d.posted == [] && d.cache == ["1"];
  }
}
