/** The strategic replier of replier.py: the instruction prompt assembled from
    the analyzer's context, and the fallback replies of `generate_reply`. */
module Replier {
  import opened Optional

  /** The analyzer's context dictionary; a key missing from the dictionary is None. */
  datatype Context = Context(
    tone: Option<string>,
    ideology: Option<string>,
    emotion: Option<string>,
    containsSlur: Option<bool>,
    replyTone: Option<string>)

  const Preamble := "You are ReasonBot. "
  const TweetLabel := ".\nTweet: "
  const Separator := "; "

  const WordLimit := "no more than 50 words"
  const NoMoralizing := "avoid moralizing"
  const CauseEffect := "use cause-effect reasoning"
  // Split in two: the verifier cannot index into a string literal this long.
  const AcknowledgeSlur := "acknowledge the hateful language" + " without repeating it"
  const HighlightContradictions := "highlight factual contradictions"
  const DefuseTension := "defuse the tension"

  const NoKeyReply := "ReasonBot cannot respond right now."
  const ErrorReply := "ReasonBot encountered an error and cannot reply."

  /** Python truthiness of an optional string: present and non-empty. */
  predicate HasValue(v: Option<string>) {
    v.Some? && v.value != ""
  }

  /** The requested reply tone, "calm" when the context does not name one. */
  function ReplyTone(ctx: Context): (t: string)
    ensures ctx.replyTone == None ==> t == "calm"
    ensures ctx.replyTone.Some? ==> t == ctx.replyTone.value
  {
    ctx.replyTone.GetOr("calm")
  }

  function ToneInstruction(replyTone: string): string {
    "Respond in a " + replyTone + " tone"
  }

  /** The analyzer flagged hateful language. */
  predicate FlagsSlur(ctx: Context) {
    ctx.containsSlur == Some(true)
  }

  /** The ideology calls for pointing out contradictions. */
  predicate FlagsFalsehood(ctx: Context) {
    ctx.ideology == Some("conspiracy") || ctx.ideology == Some("extremist")
  }

  /** The emotion or tone calls for de-escalation. */
  predicate FlagsHostility(ctx: Context) {
    ctx.emotion == Some("anger") || ctx.emotion == Some("rage") || ctx.tone == Some("aggressive")
  }

  /** The four instructions every prompt opens with, in order. */
  function BaseInstructions(ctx: Context): seq<string> {
    [ToneInstruction(ReplyTone(ctx)), WordLimit, NoMoralizing, CauseEffect]
  }

  /** The place of a conditional instruction in the prompt (3 for any other text). */
  function ConditionalRank(s: string): nat {
    if s == AcknowledgeSlur then 0
    else if s == HighlightContradictions then 1
    else if s == DefuseTension then 2
    else 3
  }

  /** No base instruction is one of the conditional ones, and those three differ. */
  lemma ConditionalsDistinct(ctx: Context)
    ensures forall s :: s in BaseInstructions(ctx) ==> ConditionalRank(s) == 3
    ensures ConditionalRank(AcknowledgeSlur) == 0
    ensures ConditionalRank(HighlightContradictions) == 1
    ensures ConditionalRank(DefuseTension) == 2
  {
    var tone := ToneInstruction(ReplyTone(ctx));
    assert tone[0] == 'R';
    assert AcknowledgeSlur[0] == 'a' && HighlightContradictions[0] == 'h' && DefuseTension[0] == 'd';
    assert |WordLimit| == 21 && |NoMoralizing| == 16 && |CauseEffect| == 26;
    assert |HighlightContradictions| == 32 && |DefuseTension| == 18;
  }

  /** The instruction list of `_build_prompt`. */
  function Instructions(ctx: Context): (r: seq<string>)
    ensures 4 <= |r| <= 7
    ensures r[..4] == BaseInstructions(ctx)
    ensures r[0] == "Respond in a " + ReplyTone(ctx) + " tone"
    ensures AcknowledgeSlur in r <==> FlagsSlur(ctx)
    ensures HighlightContradictions in r <==> FlagsFalsehood(ctx)
    ensures DefuseTension in r <==> FlagsHostility(ctx)
    ensures forall i :: 4 <= i < |r| ==> ConditionalRank(r[i]) < 3
    ensures forall i, j :: 4 <= i < j < |r| ==> ConditionalRank(r[i]) < ConditionalRank(r[j])
  {
    ConditionalsDistinct(ctx);
    BaseInstructions(ctx)
    + (if FlagsSlur(ctx) then [AcknowledgeSlur] else [])
    + (if FlagsFalsehood(ctx) then [HighlightContradictions] else [])
    + (if FlagsHostility(ctx) then [DefuseTension] else [])
  }

  /** Python's `sep.join(parts)`. */
  function Join(parts: seq<string>, sep: string): string
    decreases |parts|
  {
    if |parts| == 0 then ""
    else if |parts| == 1 then parts[0]
    else parts[0] + sep + Join(parts[1..], sep)
  }

  predicate IsPrefix(p: string, s: string) {
    |p| <= |s| && s[..|p|] == p
  }

  predicate IsSuffix(t: string, s: string) {
    |t| <= |s| && s[|s| - |t|..] == t
  }

  /** `a` occurs in `s` starting at index `k`. */
  predicate OccursAt(a: string, s: string, k: int) {
    0 <= k <= |s| - |a| && s[k..k + |a|] == a
  }

  /** `a` occurs somewhere in `s`. */
  ghost predicate IsInfix(a: string, s: string) {
    exists k :: OccursAt(a, s, k)
  }

  lemma InfixAfter(a: string, p: string, s: string)
    requires IsInfix(a, s)
    ensures IsInfix(a, p + s)
  {
    var k :| OccursAt(a, s, k);
    assert (p + s)[|p| + k..|p| + k + |a|] == a;
    assert OccursAt(a, p + s, |p| + k);
  }

  lemma InfixBefore(a: string, s: string, t: string)
    requires IsInfix(a, s)
    ensures IsInfix(a, s + t)
  {
    var k :| OccursAt(a, s, k);
    assert (s + t)[k..k + |a|] == a;
    assert OccursAt(a, s + t, k);
  }

  /** Joining a concatenation puts one separator between the two joins. */
  lemma {:induction false} JoinAppend(xs: seq<string>, ys: seq<string>, sep: string)
    requires xs != [] && ys != []
    ensures Join(xs + ys, sep) == Join(xs, sep) + sep + Join(ys, sep)
    decreases |xs|
  {
    if |xs| == 1 {
      assert (xs + ys)[1..] == ys;
    } else {
      assert (xs + ys)[1..] == xs[1..] + ys;
      JoinAppend(xs[1..], ys, sep);
    }
  }

  /** Every joined part occurs verbatim in the joined text. */
  lemma {:induction false} JoinContainsEach(parts: seq<string>, sep: string, i: nat)
    requires i < |parts|
    ensures IsInfix(parts[i], Join(parts, sep))
    decreases |parts|
  {
    if |parts| == 1 {
      assert OccursAt(parts[0], Join(parts, sep), 0);
    } else if i == 0 {
      assert Join(parts, sep)[0..|parts[0]|] == parts[0];
      assert OccursAt(parts[0], Join(parts, sep), 0);
    } else {
      JoinContainsEach(parts[1..], sep, i - 1);
      InfixAfter(parts[i], parts[0] + sep, Join(parts[1..], sep));
    }
  }

  /** The text `_build_prompt` produces before the optional instructions. */
  function PromptOpening(ctx: Context): string {
    Preamble + Join(BaseInstructions(ctx), Separator)
  }

  /** Joining four parts puts a separator between each neighbouring pair. */
  lemma JoinFour(a: string, b: string, c: string, d: string, sep: string)
    ensures Join([a, b, c, d], sep) == a + sep + b + sep + c + sep + d
  {
    var parts := [a, b, c, d];
    assert parts[1..][1..][1..] == [d];
    var tail := c + sep + d;
    assert Join(parts[1..][1..], sep) == tail;
    assert Join(parts, sep) == a + sep + (b + sep + tail);
  }

  lemma OpeningText(ctx: Context)
    ensures PromptOpening(ctx) == Preamble + ToneInstruction(ReplyTone(ctx))
      + Separator + WordLimit + Separator + NoMoralizing + Separator + CauseEffect
  {
    var t := ToneInstruction(ReplyTone(ctx));
    JoinFour(t, WordLimit, NoMoralizing, CauseEffect, Separator);
  }

  /** The optional instructions as they appear after the base ones, each
      behind its separator, in the order slur, contradictions, defuse. */
  function ConditionalText(ctx: Context): string {
    (if FlagsSlur(ctx) then Separator + AcknowledgeSlur else "")
    + (if FlagsFalsehood(ctx) then Separator + HighlightContradictions else "")
    + (if FlagsHostility(ctx) then Separator + DefuseTension else "")
  }

  /** A one-element list when `flag` holds, else the empty list. */
  function IfFlagged(flag: bool, x: string): seq<string> {
    if flag then [x] else []
  }

  /** `x` behind a separator when `flag` holds, else nothing. */
  function SeparatedIf(flag: bool, x: string, sep: string): string {
    if flag then sep + x else ""
  }

  lemma Regroup(a: string, b: string, c: string, d: string)
    ensures a + b + c + d == a + (b + c + d)
  {
  }

  /** Joining one more optional part adds it behind a separator. */
  lemma JoinExtend(xs: seq<string>, flag: bool, x: string, sep: string)
    requires xs != []
    ensures Join(xs + IfFlagged(flag, x), sep) == Join(xs, sep) + SeparatedIf(flag, x, sep)
  {
    if flag {
      JoinAppend(xs, [x], sep);
    } else {
      assert xs + [] == xs;
    }
  }

  /** Joining up to three optional parts after a non-empty list adds each
      present one behind a separator. */
  lemma JoinOptional(xs: seq<string>, f1: bool, x1: string, f2: bool, x2: string, f3: bool, x3: string, sep: string)
    requires xs != []
    ensures Join(xs + IfFlagged(f1, x1) + IfFlagged(f2, x2) + IfFlagged(f3, x3), sep)
      == Join(xs, sep) + (SeparatedIf(f1, x1, sep) + SeparatedIf(f2, x2, sep) + SeparatedIf(f3, x3, sep))
  {
    var l1 := xs + IfFlagged(f1, x1);
    var l2 := l1 + IfFlagged(f2, x2);
    JoinExtend(xs, f1, x1, sep);
    JoinExtend(l1, f2, x2, sep);
    JoinExtend(l2, f3, x3, sep);
    Regroup(Join(xs, sep), SeparatedIf(f1, x1, sep), SeparatedIf(f2, x2, sep), SeparatedIf(f3, x3, sep));
  }

  /** The joined instructions are the joined base instructions followed by
      exactly the flagged conditional ones. */
  lemma BodyText(ctx: Context)
    ensures Join(Instructions(ctx), Separator) == Join(BaseInstructions(ctx), Separator) + ConditionalText(ctx)
  {
    var f1, f2, f3 := FlagsSlur(ctx), FlagsFalsehood(ctx), FlagsHostility(ctx);
    assert Instructions(ctx) == BaseInstructions(ctx) + IfFlagged(f1, AcknowledgeSlur)
      + IfFlagged(f2, HighlightContradictions) + IfFlagged(f3, DefuseTension);
    assert ConditionalText(ctx) == SeparatedIf(f1, AcknowledgeSlur, Separator)
      + SeparatedIf(f2, HighlightContradictions, Separator) + SeparatedIf(f3, DefuseTension, Separator);
    JoinOptional(BaseInstructions(ctx), f1, AcknowledgeSlur, f2, HighlightContradictions, f3, DefuseTension, Separator);
  }

  /** Regrouping `p + (j + c) + l + t`: it opens with `p + j` and ends with `l + t`. */
  lemma Layout(p: string, j: string, c: string, body: string, l: string, t: string, r: string)
    requires body == j + c && r == p + body + l + t
    ensures r == p + j + c + l + t
    ensures IsPrefix(p + j, r)
    ensures IsSuffix(l + t, r) && IsSuffix(t, r)
  {
    assert r == (p + j) + (c + l + t);
    assert r == (p + j + c) + (l + t);
    assert r == (p + j + c + l) + t;
  }

  /** The prompt is the opening, the flagged conditional instructions and the
      labelled tweet. */
  lemma PromptShape(ctx: Context, tweet: string, r: string)
    requires r == Preamble + Join(Instructions(ctx), Separator) + TweetLabel + tweet
    ensures r == PromptOpening(ctx) + ConditionalText(ctx) + TweetLabel + tweet
    ensures IsPrefix(PromptOpening(ctx), r)
    ensures IsSuffix(TweetLabel + tweet, r) && IsSuffix(tweet, r)
  {
    BodyText(ctx);
    Layout(Preamble, Join(BaseInstructions(ctx), Separator), ConditionalText(ctx),
      Join(Instructions(ctx), Separator), TweetLabel, tweet, r);
  }

  /** `_build_prompt`: the preamble, the joined instructions and the labelled tweet. */
  function BuildPrompt(ctx: Context, tweet: string): (r: string)
    ensures r == PromptOpening(ctx) + ConditionalText(ctx) + TweetLabel + tweet
    ensures IsPrefix(PromptOpening(ctx), r)
    ensures PromptOpening(ctx) == Preamble + ToneInstruction(ReplyTone(ctx))
      + Separator + WordLimit + Separator + NoMoralizing + Separator + CauseEffect
    ensures IsSuffix(TweetLabel + tweet, r)
    ensures IsSuffix(tweet, r)
    ensures forall s :: s in Instructions(ctx) ==> IsInfix(s, r)
    ensures FlagsSlur(ctx) ==> IsInfix(AcknowledgeSlur, r)
    ensures FlagsFalsehood(ctx) ==> IsInfix(HighlightContradictions, r)
    ensures FlagsHostility(ctx) ==> IsInfix(DefuseTension, r)
  {
    var body := Join(Instructions(ctx), Separator);
    var r := Preamble + body + TweetLabel + tweet;
    OpeningText(ctx);
    PromptShape(ctx, tweet, r);
    InstructionsInPrompt(ctx, tweet, body, r);
    r
  }

  lemma InstructionsInPrompt(ctx: Context, tweet: string, body: string, r: string)
    requires body == Join(Instructions(ctx), Separator)
    requires r == Preamble + body + TweetLabel + tweet
    ensures forall s :: s in Instructions(ctx) ==> IsInfix(s, r)
  {
    var parts := Instructions(ctx);
    forall s | s in parts ensures IsInfix(s, r) {
      var i :| 0 <= i < |parts| && parts[i] == s;
      JoinContainsEach(parts, Separator, i);
      InfixAfter(s, Preamble, body);
      InfixBefore(s, Preamble + body, TweetLabel + tweet);
      assert (Preamble + body) + (TweetLabel + tweet) == r;
    }
  }

  /** What the model call ends with after its retries: an exception, or a
      response whose first choice carries (or lacks) message content. */
  datatype Completion = Raised | Answered(content: Option<string>)

  /** The reply `generate_reply` returns, and the prompt built for the model
      whenever a key is set (None when no key is set). */
  datatype ReplyOutcome = ReplyOutcome(text: string, request: Option<string>)

  /** `generate_reply`: the no-key fallback, the model's answer, or the error fallback. */
  function GenerateReply(ctx: Context, tweet: string, apiKey: Option<string>, answer: Completion): (r: ReplyOutcome)
    ensures r.request == None <==> !HasValue(apiKey)
    ensures !HasValue(apiKey) ==> r.text == NoKeyReply
    ensures r.request.Some? ==> r.request.value == BuildPrompt(ctx, tweet)
    ensures HasValue(apiKey) && answer.Answered? && answer.content.Some? ==> r.text == answer.content.value
    ensures HasValue(apiKey) && !(answer.Answered? && answer.content.Some?) ==> r.text == ErrorReply
  {
    if !HasValue(apiKey) then
      ReplyOutcome(NoKeyReply, None)
    else
      var prompt := BuildPrompt(ctx, tweet);
      match answer
      case Answered(Some(text)) => ReplyOutcome(text, Some(prompt))
      case _ => ReplyOutcome(ErrorReply, Some(prompt))
  }
}
