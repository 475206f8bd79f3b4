/**
 * Conversation practice prompts: the questions pulled out of the language
 * model's numbered or bulleted answer, padded with fixed questions about
 * the topic and cut to the number asked for.
 *
 * The model call is a parameter: either its answer text or a failure
 * (an exception anywhere on the request path, an answer without text).
 */
module ConversationService {
  import opened Wrappers
  import Text
  import Exceptions

  /** One prompt: the question and the line of context shown with it. */
  datatype ConversationPrompt = ConversationPrompt(question: string, context: string)

  /** The context line every prompt about `topic` carries. */
  function Context(topic: string): string
  {
    "Practice speaking about: " + topic
  }

  /** The numbering and bullet characters removed from the front of a line. */
  const Markers: set<char> := {'0', '1', '2', '3', '4', '5', '6', '7', '8', '9', '.', '-', '*', ' '}

  /**
   * What one line of the answer yields: the line stripped, its numbering or
   * bullet removed and stripped again, kept only when longer than ten
   * characters.
   */
  function Extract(raw: string): (q: Option<string>)
    ensures q.Some? ==> Text.Stripped(q.value) && |q.value| > 10
  {
    var line := Text.Strip(raw);
    if line == [] then None
    else
      var text := Text.Strip(Text.LStripChars(line, Markers));
      if text != [] && |text| > 10 then Some(text) else None
  }

  /** A clean question, not starting with a numbering or bullet character, is kept exactly as it is. */
  lemma ExtractKeepsQuestion(q: string)
    requires Text.Stripped(q) && q[0] !in Markers && |q| > 10
    ensures Extract(q) == Some(q)
  {
    assert Text.LStrip(q) == q;
    assert Text.RStrip(q) == q;
    assert Text.Strip(q) == q;
    assert Text.LStripChars(q, Markers) == q;
  }

  /** A line of ten characters or fewer never becomes a prompt, whatever it holds. */
  lemma ShortLineDropped(raw: string)
    requires |raw| <= 10
    ensures Extract(raw).None?
  {
  }

  /** What each line yields. */
  function ExtractEach(lines: seq<string>): (r: seq<Option<string>>)
    ensures |r| == |lines|
    ensures forall i :: 0 <= i < |r| ==> r[i] == Extract(lines[i])
  {
    seq(|lines|, i requires 0 <= i < |lines| => Extract(lines[i]))
  }

  /** What each line of the stripped answer yields. */
  function Found(content: string): (r: seq<Option<string>>)
    ensures forall i :: 0 <= i < |r| ==> r[i].Some? ==> Text.Stripped(r[i].value) && |r[i].value| > 10
  {
    ExtractEach(Text.SplitOn(Text.Strip(content), "\n"))
  }

  /** The prompts built from what the lines yielded, in line order. */
  function Extracted(found: seq<Option<string>>, topic: string): (r: seq<ConversationPrompt>)
    ensures |r| <= |found|
    ensures forall i :: 0 <= i < |r| ==> r[i].context == Context(topic)
  {
    if found == [] then []
    else
      var init := Extracted(found[..|found| - 1], topic);
      match found[|found| - 1]
      case None => init
      case Some(q) => init + [ConversationPrompt(q, Context(topic))]
  }

  /** Every extracted question comes from a line, and is stripped and longer than ten characters. */
  lemma {:induction false} ExtractedQuestions(found: seq<Option<string>>, topic: string)
    requires forall i :: 0 <= i < |found| ==> found[i].Some? ==> Text.Stripped(found[i].value) && |found[i].value| > 10
    ensures forall p :: p in Extracted(found, topic) ==>
      Some(p.question) in found && Text.Stripped(p.question) && |p.question| > 10
  {
    if found != [] {
      var init := found[..|found| - 1];
      ExtractedQuestions(init, topic);
      assert forall x :: x in init ==> x in found;
    }
  }

  /** Extraction goes line by line: the prompts of two blocks of lines are those of each, in order. */
  lemma {:induction false} ExtractedAppend(a: seq<Option<string>>, b: seq<Option<string>>, topic: string)
    ensures Extracted(a + b, topic) == Extracted(a, topic) + Extracted(b, topic)
    decreases |b|
  {
    if b == [] {
      assert a + b == a;
    } else {
      var b' := b[..|b| - 1];
      assert (a + b)[..|a + b| - 1] == a + b';
      assert (a + b)[|a + b| - 1] == b[|b| - 1];
      ExtractedAppend(a, b', topic);
    }
  }

  /** The extraction loop. */
  method ExtractPrompts(lines: seq<string>, topic: string) returns (prompts: seq<ConversationPrompt>)
    ensures prompts == Extracted(ExtractEach(lines), topic)
  {
    ghost var found := ExtractEach(lines);
    prompts := [];
    var i := 0;
    while i < |lines|
      invariant 0 <= i <= |lines|
      invariant prompts == Extracted(found[..i], topic)
    {
      assert found[..i + 1][..i] == found[..i];
      assert found[i] == Extract(lines[i]);
      match Extract(lines[i]) {
        case None =>
        case Some(q) =>
          prompts := prompts + [ConversationPrompt(q, Context(topic))];
      }
      i := i + 1;
    }
    assert found[..i] == found;
  }

  /** The eight fixed questions about a topic. */
  function Template(i: nat, topic: string): (t: string)
    requires i < 8
    ensures Text.Contains(t, topic)
  {
    var pre :=
      if i == 0 then "Tell me about "
      else if i == 1 then "Describe your experience with "
      else if i == 2 then "What are the most important aspects of "
      else if i == 3 then "How would you explain "
      else if i == 4 then "What challenges or opportunities do you see related to "
      else if i == 5 then "Share your thoughts on the future of "
      else if i == 6 then "What personal connection do you have with "
      else "If you could change one thing about ";
    var post :=
      if i == 0 then ". What interests you most about it?"
      else if i == 1 then ". What have you learned?"
      else if i == 2 then " that people should know?"
      else if i == 3 then " to someone who has never heard of it?"
      else if i == 4 then "?"
      else if i == 5 then "."
      else if i == 6 then "?"
      else ", what would it be and why?";
    Text.ContainsMiddle(pre, topic, post);
    pre + topic + post
  }

  /** `min(count, 8)`, and none for a negative count. */
  function FallbackCount(count: int): (n: nat)
    ensures n <= 8
    ensures count >= 0 ==> n <= count
    ensures count >= 8 ==> n == 8
    ensures 0 <= count <= 8 ==> n == count
  {
    if count <= 0 then 0 else if count < 8 then count else 8
  }

  /** `_generate_fallback_prompts`: question i at position i, each with the topic's context. */
  function Fallback(topic: string, count: int): (r: seq<ConversationPrompt>)
    ensures |r| == FallbackCount(count)
    ensures forall i :: 0 <= i < |r| ==>
      r[i].context == Context(topic) && Text.Contains(r[i].question, topic)
  {
    seq(FallbackCount(count), i requires 0 <= i < FallbackCount(count) =>
      ConversationPrompt(Template(i, topic), Context(topic)))
  }

  /** The fallback loop. */
  method FallbackPrompts(topic: string, count: int) returns (prompts: seq<ConversationPrompt>)
    ensures prompts == Fallback(topic, count)
  {
    var n := if count < 8 then count else 8;
    prompts := [];
    var i := 0;
    while i < n
      invariant 0 <= i <= FallbackCount(count)
      invariant |prompts| == i
      invariant forall k :: 0 <= k < i ==> prompts[k] == ConversationPrompt(Template(k, topic), Context(topic))
    {
      assert i % 8 == i;
      ExtendFallback(prompts, topic);
      prompts := prompts + [ConversationPrompt(Template(i % 8, topic), Context(topic))];
      i := i + 1;
    }
  }

  /** One more question, at the next position, keeps question k at position k. */
  lemma ExtendFallback(prompts: seq<ConversationPrompt>, topic: string)
    requires |prompts| < 8
    requires forall k :: 0 <= k < |prompts| ==> prompts[k] == ConversationPrompt(Template(k, topic), Context(topic))
    ensures var longer := prompts + [ConversationPrompt(Template(|prompts|, topic), Context(topic))];
      forall k :: 0 <= k < |longer| ==> longer[k] == ConversationPrompt(Template(k, topic), Context(topic))
  {
  }

  /** A short extraction padded with fallback questions, then cut to `count`. */
  function Padded(extracted: seq<ConversationPrompt>, topic: string, count: int): seq<ConversationPrompt>
  {
    var all := if |extracted| < count then extracted + Fallback(topic, count - |extracted|) else extracted;
    Text.SliceTo(all, count)
  }

  /** Every prompt of the list carries the topic's context. */
  predicate AboutTopic(ps: seq<ConversationPrompt>, topic: string)
  {
    forall i :: 0 <= i < |ps| ==> ps[i].context == Context(topic)
  }

  lemma AboutConcat(a: seq<ConversationPrompt>, b: seq<ConversationPrompt>, topic: string)
    requires AboutTopic(a, topic) && AboutTopic(b, topic)
    ensures AboutTopic(a + b, topic)
  {
    forall i | 0 <= i < |a + b| ensures (a + b)[i].context == Context(topic) {
      if i >= |a| {
        assert (a + b)[i] == b[i - |a|];
      }
    }
  }

  lemma AboutPrefix(a: seq<ConversationPrompt>, n: nat, topic: string)
    requires AboutTopic(a, topic) && n <= |a|
    ensures AboutTopic(a[..n], topic)
  {
  }

  /**
   * Never more than `count` prompts, and exactly `count` whenever the
   * extraction and the eight fallbacks together have enough; the extracted
   * prompts come first, and every prompt carries the topic's context.
   */
  lemma PaddedShape(extracted: seq<ConversationPrompt>, topic: string, count: int)
    requires count >= 0 && AboutTopic(extracted, topic)
    ensures |Padded(extracted, topic, count)| == (if count < |extracted| + 8 then count else |extracted| + 8)
    ensures var m := if count < |extracted| then count else |extracted|;
      Padded(extracted, topic, count)[..m] == extracted[..m]
    ensures AboutTopic(Padded(extracted, topic, count), topic)
  {
    var all := if |extracted| < count then extracted + Fallback(topic, count - |extracted|) else extracted;
    if |extracted| < count {
      AboutConcat(extracted, Fallback(topic, count - |extracted|), topic);
    }
    var m := if count < |extracted| then count else |extracted|;
    assert all[..m] == extracted[..m];
    var r := Text.SliceTo(all, count);
    AboutPrefix(all, |r|, topic);
    assert r[..m] == all[..m];
  }

  /** What the language model gave back: a failure on the way, or the answer's text. */
  datatype Reply = Failed | Answer(content: string)

  const NoClientMessage: string := "OpenAI API key not configured. Please set OPENAI_API_KEY environment variable."

  /**
   * `generate_prompts`: a blank topic is refused, then a missing client;
   * from then on there is always an answer: the fallback questions when the
   * model call fails, else the extracted questions, padded and cut to
   * `count`.
   */
  function Generate(topic: string, count: int, hasClient: bool, reply: Reply): (r: Result<seq<ConversationPrompt>, Exceptions.ApiError>)
    ensures Text.IsBlank(topic) ==> r == Err(Exceptions.Validation("Topic cannot be empty", None))
    ensures !Text.IsBlank(topic) && !hasClient ==> r == Err(Exceptions.ServiceNotAvailable(NoClientMessage))
    ensures r.Ok? <==> !Text.IsBlank(topic) && hasClient
    ensures r.Ok? && reply.Failed? ==> r.value == Fallback(topic, count)
    ensures r.Ok? && reply.Answer? ==> r.value == Padded(Extracted(Found(reply.content), topic), topic, count)
  {
    if Text.IsBlank(topic) then Err(Exceptions.Validation("Topic cannot be empty", None))
    else if !hasClient then Err(Exceptions.ServiceNotAvailable(NoClientMessage))
    else match reply
      case Failed => Ok(Fallback(topic, count))
      case Answer(content) => Ok(Padded(Extracted(Found(content), topic), topic, count))
  }

  /**
   * Whatever the model answers, an accepted request gets at most `count`
   * prompts, exactly `count` when it asks for eight or fewer, and all of
   * them about the topic.
   */
  lemma GenerateShape(topic: string, count: int, hasClient: bool, reply: Reply)
    requires Generate(topic, count, hasClient, reply).Ok? && count >= 0
    ensures |Generate(topic, count, hasClient, reply).value| <= count
    ensures count <= 8 ==> |Generate(topic, count, hasClient, reply).value| == count
    ensures AboutTopic(Generate(topic, count, hasClient, reply).value, topic)
  {
    if reply.Answer? {
      PaddedShape(Extracted(Found(reply.content), topic), topic, count);
    }
  }

  /** `generate_prompts` once the topic and the client have been checked. */
  method GeneratePrompts(topic: string, count: int, hasClient: bool, reply: Reply) returns (r: Result<seq<ConversationPrompt>, Exceptions.ApiError>)
    ensures r == Generate(topic, count, hasClient, reply)
  {
    if Text.IsBlank(topic) {
      return Err(Exceptions.Validation("Topic cannot be empty", None));
    }
    if !hasClient {
      return Err(Exceptions.ServiceNotAvailable(NoClientMessage));
    }
    match reply {
      case Failed =>
        var fallback := FallbackPrompts(topic, count);
        r := Ok(fallback);
      case Answer(content) =>
        var prompts := ExtractPrompts(Text.SplitOn(Text.Strip(content), "\n"), topic);
        ghost var extracted := prompts;
        assert extracted == Extracted(Found(content), topic);
        if |prompts| < count {
          var fallback := FallbackPrompts(topic, count - |prompts|);
          prompts := prompts + fallback;
        }
        r := Ok(Text.SliceTo(prompts, count));
        assert r.value == Padded(extracted, topic, count);
    }
  }
}
