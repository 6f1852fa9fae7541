/**
 * The streaming bridge of server/strands_agent.py. The Strands agent is
 * abstracted as a `Backend`: the event stream the current agent produces for
 * the prompt (`initial`) and the one a rebuilt agent would produce
 * (`rebuilt`). Each is a finite sequence of events that ends normally or by
 * raising an error. The cancel flag is a point in the run: from the `k`-th
 * check on (checks counted over both attempts) `cancel.is_set()` is true.
 */
module Agent {
  import opened Common
  import opened History

  /** A raw Strands event; only its `"data"` entry is read. */
  datatype Event = Event(data: Option<string>)

  /** `if data:` for a string entry: present and non-empty. */
  predicate Truthy(e: Event)
  {
    e.data.Some? && e.data.value != ""
  }

  /** What a stream can raise: a botocore `ClientError` with its error code, or anything else. */
  datatype BackendError = ClientError(code: Option<string>) | OtherError(name: string)

  /** The two codes that trigger a rebuild. */
  predicate IsExpiry(e: BackendError)
  {
    e.ClientError? && e.code.Some? && (e.code.value == "ExpiredToken" || e.code.value == "ExpiredTokenException")
  }

  /** One `stream_async` run: its events, then possibly an error raised after them. */
  datatype Attempt = Attempt(events: seq<Event>, failure: Option<BackendError>)

  datatype Backend = Backend(initial: Attempt, rebuilt: Attempt)

  /** How `generate_stream` ends: it returns after the stream, returns on cancel, or raises. */
  datatype Outcome = Finished | Cancelled | Raised(error: BackendError)

  datatype StreamResult = StreamResult(deltas: seq<string>, outcome: Outcome)

  /** How one attempt ends inside the bridge. */
  datatype AttemptEnd = Completed | CancelSeen | Failed(error: BackendError)

  // ---------- prompt selection ----------

  /** `next((m["content"] for m in reversed(messages) if m["role"] == "user"), "")`. */
  function LastUserContent(messages: seq<ChatMessage>): (r: string)
    ensures (forall i :: 0 <= i < |messages| ==> messages[i].role != "user") ==> r == ""
    ensures forall i :: 0 <= i < |messages| && messages[i].role == "user"
                        && (forall j :: i < j < |messages| ==> messages[j].role != "user")
                        ==> r == messages[i].content
  {
    if messages == [] then ""
    else if messages[|messages| - 1].role == "user" then messages[|messages| - 1].content
    else
      var init := messages[..|messages| - 1];
      assert forall i :: 0 <= i < |init| ==> init[i] == messages[i];
      LastUserContent(init)
  }

  // ---------- delta filtering ----------

  /** The `data` of the truthy events, in order. */
  function Visible(events: seq<Event>): (r: seq<string>)
    ensures |r| <= |events|
    ensures forall d :: d in r ==> d != ""
  {
    if events == [] then []
    else (if Truthy(events[0]) then [events[0].data.value] else []) + Visible(events[1..])
  }

  lemma {:induction false} VisibleAppend(a: seq<Event>, b: seq<Event>)
    ensures Visible(a + b) == Visible(a) + Visible(b)
  {
    if a == [] {
      assert a + b == b;
    } else {
      assert (a + b)[0] == a[0] && (a + b)[1..] == a[1..] + b;
      VisibleAppend(a[1..], b);
      var head := if Truthy(a[0]) then [a[0].data.value] else [];
      assert Visible(a + b) == head + Visible(a[1..] + b);
      assert Visible(a) == head + Visible(a[1..]);
    }
  }

  /**
   * Visible keeps exactly the truthy events' data, unchanged and in order:
   * one event contributes its data when truthy and nothing otherwise, and
   * Visible distributes over concatenation.
   */
  lemma VisibleIsFilter(events: seq<Event>, e: Event)
    ensures Visible(events + [e]) == Visible(events) + (if Truthy(e) then [e.data.value] else [])
  {
    VisibleAppend(events, [e]);
    assert [e][1..] == [];
  }

  // ---------- the bridge as a function ----------

  /**
   * Index of the event at which the cancel flag is first seen set, when
   * that happens within this attempt; checks before this attempt number
   * `start`.
   */
  function CancelIndex(a: Attempt, start: nat, cancelAt: Option<nat>): (r: Option<nat>)
    ensures r.Some? ==> && r.value < |a.events| && cancelAt.Some? && start + r.value >= cancelAt.value
                        && (r.value == 0 || start + r.value == cancelAt.value)
    ensures r.None? ==> cancelAt.None? || |a.events| == 0 || start + |a.events| <= cancelAt.value
  {
    if cancelAt.None? then None
    else
      var first := if cancelAt.value <= start then 0 else cancelAt.value - start;
      if first < |a.events| then Some(first) else None
  }

  /** The deltas one attempt yields and how it ends. */
  function RunAttempt(a: Attempt, start: nat, cancelAt: Option<nat>): (seq<string>, AttemptEnd)
  {
    match CancelIndex(a, start, cancelAt)
    case Some(i) => (Visible(a.events[..i]), CancelSeen)
    case None => (Visible(a.events), if a.failure.None? then Completed else Failed(a.failure.value))
  }

  /** How the bridge ends when an attempt ends this way and is not retried. */
  function Ending(end: AttemptEnd): Outcome
  {
    match end
    case Completed => Finished
    case CancelSeen => Cancelled
    case Failed(e) => Raised(e)
  }

  /**
   * `generate_stream` as a function of the cancel point and the backend: an
   * expiry on the first attempt rebuilds the agent and runs the rebuilt
   * stream, whose ending is final; any other ending is final at once.
   */
  function Bridge(cancelAt: Option<nat>, backend: Backend): (r: StreamResult)
    ensures r.outcome == Cancelled ==> cancelAt.Some?
    ensures |r.deltas| <= |backend.initial.events| + |backend.rebuilt.events|
  {
    var (first, end1) := RunAttempt(backend.initial, 0, cancelAt);
    if end1.Failed? && IsExpiry(end1.error) then
      var (second, end2) := RunAttempt(backend.rebuilt, |backend.initial.events|, cancelAt);
      StreamResult(first + second, Ending(end2))
    else StreamResult(first, Ending(end1))
  }

  /** Whether the bridge rebuilds the agent: the first attempt ran to an expiry error. */
  predicate Retries(cancelAt: Option<nat>, backend: Backend)
  {
    var (_, end1) := RunAttempt(backend.initial, 0, cancelAt);
    end1.Failed? && IsExpiry(end1.error)
  }

  /**
   * The consumer stops pulling right after taking the delta at index
   * `stopAfter`, before the stream has ended: the generator stays suspended
   * at that `yield` and is never resumed.
   */
  predicate Abandons(deltas: seq<string>, stopAfter: Option<nat>)
  {
    stopAfter.Some? && stopAfter.value < |deltas|
  }

  /** The deltas such a consumer takes: a prefix of the stream, through the one it stopped after. */
  function Taken(deltas: seq<string>, stopAfter: Option<nat>): (r: seq<string>)
    ensures r <= deltas
    ensures Abandons(deltas, stopAfter) ==> |r| == stopAfter.value + 1
    ensures !Abandons(deltas, stopAfter) ==> r == deltas
  {
    if Abandons(deltas, stopAfter) then deltas[..stopAfter.value + 1] else deltas
  }

  /**
   * Whether `_build_agent` runs: the first attempt ran into an expiry, and
   * the consumer was still pulling when it was raised, so the generator got
   * to its `except` clause.
   */
  predicate Rebuilds(cancelAt: Option<nat>, backend: Backend, stopAfter: Option<nat>)
  {
    Retries(cancelAt, backend) && !Abandons(RunAttempt(backend.initial, 0, cancelAt).0, stopAfter)
  }

  /**
   * When the generator does not get past the first attempt (no expiry, or
   * the consumer stops during its deltas), the consumer gets that attempt's
   * deltas and ending, and the agent is not rebuilt.
   */
  lemma HandOverFirst(cancelAt: Option<nat>, backend: Backend, stopAfter: Option<nat>)
    requires var (first, _) := RunAttempt(backend.initial, 0, cancelAt);
             !Retries(cancelAt, backend) || Abandons(first, stopAfter)
    ensures var (first, end1) := RunAttempt(backend.initial, 0, cancelAt);
            var r := Bridge(cancelAt, backend);
            && !Rebuilds(cancelAt, backend, stopAfter)
            && Abandons(r.deltas, stopAfter) == Abandons(first, stopAfter)
            && (Abandons(first, stopAfter) ==> Taken(r.deltas, stopAfter) == first[..stopAfter.value + 1])
            && (!Abandons(first, stopAfter) ==> r == StreamResult(first, Ending(end1)))
  {
    var (first, end1) := RunAttempt(backend.initial, 0, cancelAt);
    assert first <= Bridge(cancelAt, backend).deltas;
  }

  /** After a rebuild, the stream is both attempts' deltas, ending as the rebuilt attempt does. */
  lemma HandOverSecond(cancelAt: Option<nat>, backend: Backend, stopAfter: Option<nat>)
    requires Rebuilds(cancelAt, backend, stopAfter)
    ensures var (first, _) := RunAttempt(backend.initial, 0, cancelAt);
            var (second, end2) := RunAttempt(backend.rebuilt, |backend.initial.events|, cancelAt);
            Bridge(cancelAt, backend) == StreamResult(first + second, Ending(end2))
  {
  }

  /**
   * The attempt the loop is in settles what the consumer gets: the deltas
   * yielded so far, cut at its stop, and the attempt's ending when it did
   * not stop; the agent was rebuilt exactly when this is the second attempt.
   */
  lemma HandOver(cancelAt: Option<nat>, backend: Backend, stopAfter: Option<nat>, second: bool,
                 yielded: seq<string>, end: AttemptEnd)
    requires var (first, end1) := RunAttempt(backend.initial, 0, cancelAt);
             var (rest, end2) := RunAttempt(backend.rebuilt, |backend.initial.events|, cancelAt);
             && (!second ==> yielded == first && end == end1)
             && (second ==> Rebuilds(cancelAt, backend, stopAfter) && yielded == first + rest && end == end2)
    requires Abandons(yielded, stopAfter) || !(end.Failed? && IsExpiry(end.error) && !second)
    ensures var r := Bridge(cancelAt, backend);
            && Abandons(r.deltas, stopAfter) == Abandons(yielded, stopAfter)
            && (Abandons(yielded, stopAfter) ==> Taken(r.deltas, stopAfter) == yielded[..stopAfter.value + 1])
            && (!Abandons(yielded, stopAfter) ==> r == StreamResult(yielded, Ending(end)))
            && (Rebuilds(cancelAt, backend, stopAfter) <==> second)
  {
    if second {
      HandOverSecond(cancelAt, backend, stopAfter);
    } else {
      HandOverFirst(cancelAt, backend, stopAfter);
    }
  }

  // ---------- properties of the bridge ----------

  /**
   * A consumer that stops during the first attempt's deltas leaves the
   * generator suspended before the expiry is raised: it has taken a prefix
   * of the first attempt's deltas, and the agent is not rebuilt.
   */
  lemma StopBeforeExpiryKeepsAgent(cancelAt: Option<nat>, backend: Backend, k: nat)
    requires k < |RunAttempt(backend.initial, 0, cancelAt).0|
    ensures var first := RunAttempt(backend.initial, 0, cancelAt).0;
            var r := Bridge(cancelAt, backend);
            && Abandons(r.deltas, Some(k))
            && Taken(r.deltas, Some(k)) == first[..k + 1]
            && !Rebuilds(cancelAt, backend, Some(k))
  {
    var first := RunAttempt(backend.initial, 0, cancelAt).0;
    var r := Bridge(cancelAt, backend);
    assert first <= r.deltas;
  }

  /**
   * Without cancellation: a stream that ends normally yields its visible
   * deltas; any error other than an expiry propagates after the deltas
   * already yielded; an expiry restarts once, and whatever the rebuilt
   * stream raises, expiry included, propagates.
   */
  lemma BridgeWithoutCancel(backend: Backend)
    ensures var a, b := backend.initial, backend.rebuilt;
            var r := Bridge(None, backend);
            && (a.failure.None? ==> r == StreamResult(Visible(a.events), Finished))
            && (a.failure.Some? && !IsExpiry(a.failure.value) ==>
                  r == StreamResult(Visible(a.events), Raised(a.failure.value)))
            && (a.failure.Some? && IsExpiry(a.failure.value) ==>
                  && r.deltas == Visible(a.events) + Visible(b.events)
                  && r.outcome == (if b.failure.None? then Finished else Raised(b.failure.value)))
  {
  }

  /**
   * An expiry before any visible delta: the caller sees exactly the rebuilt
   * stream's deltas, nothing duplicated.
   */
  lemma {:induction false} ExpiryBeforeOutputNoDuplicates(backend: Backend)
    requires backend.initial.failure.Some? && IsExpiry(backend.initial.failure.value)
    requires forall i :: 0 <= i < |backend.initial.events| ==> !Truthy(backend.initial.events[i])
    ensures Bridge(None, backend).deltas == Visible(backend.rebuilt.events)
  {
    NothingVisible(backend.initial.events);
  }

  lemma {:induction false} NothingVisible(events: seq<Event>)
    requires forall i :: 0 <= i < |events| ==> !Truthy(events[i])
    ensures Visible(events) == []
  {
    if events != [] {
      NothingVisible(events[1..]);
    }
  }

  /**
   * At most two attempts: the rebuilt stream is consulted only after an
   * expiry on the first one, so with any other ending the result does not
   * depend on it.
   */
  lemma RebuiltOnlyAfterExpiry(cancelAt: Option<nat>, backend: Backend, other: Attempt)
    requires !Retries(cancelAt, backend)
    ensures Bridge(cancelAt, backend) == Bridge(cancelAt, Backend(backend.initial, other))
  {
  }

  /** A second expiry is not retried: it propagates. */
  lemma SecondExpiryPropagates(backend: Backend)
    requires backend.initial.failure.Some? && IsExpiry(backend.initial.failure.value)
    requires backend.rebuilt.failure.Some? && IsExpiry(backend.rebuilt.failure.value)
    ensures Bridge(None, backend).outcome == Raised(backend.rebuilt.failure.value)
  {
  }

  /** The events the bridge consumes when nothing cancels it. */
  function Consumed(backend: Backend): seq<Event>
  {
    if Retries(None, backend) then backend.initial.events + backend.rebuilt.events else backend.initial.events
  }

  /**
   * Cancellation only truncates: with the flag set from the `k`-th check
   * on, the bridge either ends exactly as without cancellation, or returns
   * without error having yielded precisely the visible deltas of the first
   * `k` events it would have consumed.
   */
  lemma CancelTruncates(k: nat, backend: Backend)
    ensures var r, full := Bridge(Some(k), backend), Bridge(None, backend);
            || r == full
            || (&& r.outcome == Cancelled
                && k < |Consumed(backend)|
                && r.deltas == Visible(Consumed(backend)[..k])
                && r.deltas <= full.deltas)
  {
    var a, b := backend.initial, backend.rebuilt;
    BridgeWithoutCancel(backend);
    if k < |a.events| {
      CancelInFirstAttempt(k, backend);
    } else {
      assert RunAttempt(a, 0, Some(k)) == RunAttempt(a, 0, None);
      if Retries(None, backend) {
        CancelInSecondAttempt(k, backend);
      }
    }
  }

  lemma CancelInFirstAttempt(k: nat, backend: Backend)
    requires k < |backend.initial.events|
    ensures var a := backend.initial;
            && Bridge(Some(k), backend) == StreamResult(Visible(a.events[..k]), Cancelled)
            && Consumed(backend)[..k] == a.events[..k]
            && Visible(a.events[..k]) <= Visible(a.events)
  {
    var a, b := backend.initial, backend.rebuilt;
    assert CancelIndex(a, 0, Some(k)) == Some(k);
    assert a.events == a.events[..k] + a.events[k..];
    VisibleAppend(a.events[..k], a.events[k..]);
    if Retries(None, backend) {
      assert (a.events + b.events)[..k] == a.events[..k];
    }
  }

  lemma CancelInSecondAttempt(k: nat, backend: Backend)
    requires |backend.initial.events| <= k
    requires Retries(None, backend)
    ensures var r, full := Bridge(Some(k), backend), Bridge(None, backend);
            || r == full
            || (&& r.outcome == Cancelled
                && k < |Consumed(backend)|
                && r.deltas == Visible(Consumed(backend)[..k])
                && r.deltas <= full.deltas)
  {
    var a, b := backend.initial, backend.rebuilt;
    var j := k - |a.events|;
    assert RunAttempt(a, 0, Some(k)) == RunAttempt(a, 0, None);
    if j < |b.events| {
      assert CancelIndex(b, |a.events|, Some(k)) == Some(j);
      assert Bridge(Some(k), backend) == StreamResult(Visible(a.events) + Visible(b.events[..j]), Cancelled);
      assert Consumed(backend) == a.events + b.events;
      CutInSecond(a.events, b.events, j);
    } else {
      assert RunAttempt(b, |a.events|, Some(k)) == RunAttempt(b, |a.events|, None);
    }
  }

  /** What cutting the events inside the second attempt leaves visible. */
  lemma CutInSecond(a: seq<Event>, b: seq<Event>, j: nat)
    requires j <= |b|
    ensures Visible(a) + Visible(b[..j]) == Visible((a + b)[..|a| + j])
    ensures Visible(a) + Visible(b[..j]) <= Visible(a) + Visible(b)
  {
    PrefixOfConcat(a, b, j);
    VisibleAppend(a, b[..j]);
    SplitAt(b, b[..j], b[j..]);
    VisibleAppend(b[..j], b[j..]);
  }

  /** A run cancelled from the `k`-th check on yields no more than `k` deltas. */
  lemma CancelBoundsOutput(k: nat, backend: Backend)
    ensures var r := Bridge(Some(k), backend);
            r.outcome == Cancelled ==> |r.deltas| <= k
  {
    var a, b := backend.initial, backend.rebuilt;
    var i := CancelIndex(a, 0, Some(k));
    if i.None? && Retries(Some(k), backend) {
      var j := CancelIndex(b, |a.events|, Some(k));
      if j.Some? {
        assert |Visible(b.events[..j.value])| <= j.value;
      }
    }
  }

  // ---------- the bridge as the source runs it ----------

  /**
   * `_stream_once` and the body of the `async for`: check the flag before
   * each event, yield truthy data, and after the last event raise the
   * attempt's error if it has one.
   */
  method StreamOnce(a: Attempt, start: nat, cancelAt: Option<nat>) returns (deltas: seq<string>, end: AttemptEnd)
    ensures (deltas, end) == RunAttempt(a, start, cancelAt)
  {
    deltas := [];
    var i := 0;
    while i < |a.events|
      invariant 0 <= i <= |a.events|
      invariant 0 < i ==> cancelAt.None? || start + i <= cancelAt.value
      invariant deltas == Visible(a.events[..i])
    {
      if cancelAt.Some? && start + i >= cancelAt.value {
        return deltas, CancelSeen;
      }
      var e := a.events[i];
      VisibleIsFilter(a.events[..i], e);
      assert a.events[..i + 1] == a.events[..i] + [e];
      if Truthy(e) {
        deltas := deltas + [e.data.value];
      }
      i := i + 1;
    }
    assert a.events[..i] == a.events;
    end := if a.failure.None? then Completed else Failed(a.failure.value);
  }

  /** `_provider()`: the lower-cased, stripped setting, `"bedrock"` when unset or empty. */
  function Provider(env: Option<string>): string
  {
    Strip(Lower(if env.Some? && env.value != "" then env.value else "bedrock"))
  }

  const BedrockDefaultModel: string := "us.anthropic.claude-sonnet-4-20250514-v1:0"
  const OpenAIDefaultModel: string := "gpt-4o-mini"
  const DefaultRegion: string := "us-east-1"

  /** `_model_id()`: `MODEL_ID` when set (even to ""), else the provider's default. */
  function ModelId(providerEnv: Option<string>, modelEnv: Option<string>): string
  {
    if modelEnv.Some? then modelEnv.value
    else if Provider(providerEnv) == "bedrock" then BedrockDefaultModel
    else OpenAIDefaultModel
  }

  /** The model `_build_agent` configures. */
  datatype ModelConfig = OpenAIModel(modelId: string) | BedrockModel(modelId: string, region: string)

  function BuildModel(providerEnv: Option<string>, modelEnv: Option<string>, regionEnv: Option<string>): ModelConfig
  {
    var id := ModelId(providerEnv, modelEnv);
    if Provider(providerEnv) == "openai" then OpenAIModel(id)
    else BedrockModel(id, if regionEnv.Some? then regionEnv.value else DefaultRegion)
  }

  /**
   * Unset or empty selects Bedrock with its default model; the OpenAI
   * branch is taken exactly when the normalised provider is `"openai"`;
   * every other provider, a whitespace-only one included, builds Bedrock,
   * with the Bedrock default model only for `"bedrock"` itself.
   */
  lemma ProviderSelection(providerEnv: Option<string>, modelEnv: Option<string>, regionEnv: Option<string>)
    ensures providerEnv.None? || providerEnv == Some("") ==> Provider(providerEnv) == "bedrock"
    ensures BuildModel(providerEnv, modelEnv, regionEnv).OpenAIModel? <==> Provider(providerEnv) == "openai"
    ensures modelEnv.None? && Provider(providerEnv) == "bedrock" ==>
              BuildModel(providerEnv, modelEnv, regionEnv) ==
              BedrockModel(BedrockDefaultModel, if regionEnv.Some? then regionEnv.value else DefaultRegion)
    ensures modelEnv.None? && Provider(providerEnv) != "bedrock" ==>
              BuildModel(providerEnv, modelEnv, regionEnv).modelId == OpenAIDefaultModel
    ensures modelEnv.Some? ==> BuildModel(providerEnv, modelEnv, regionEnv).modelId == modelEnv.value
  {
    if providerEnv.None? || providerEnv == Some("") {
      StripBedrock();
    }
  }

  lemma StripBedrock()
    ensures Strip(Lower("bedrock")) == "bedrock"
  {
    var s := Lower("bedrock");
    assert s == "bedrock";
    assert !IsSpace(s[0]) && !IsSpace(s[|s| - 1]);
    assert LeadingSpaces(s) == 0;
    assert TrailingSpaces(s[0..]) == 0;
  }

  /** The provider never starts or ends with whitespace and has no upper-case ASCII letter. */
  lemma ProviderIsNormalised(env: Option<string>)
    ensures var p := Provider(env);
            && (p == "" || (!IsSpace(p[0]) && !IsSpace(p[|p| - 1])))
            && forall i :: 0 <= i < |p| ==> !('A' <= p[i] <= 'Z')
  {
    var raw := if env.Some? && env.value != "" then env.value else "bedrock";
    LowerNoUpper(raw);
    StripNoUpper(Lower(raw));
  }

  lemma LowerNoUpper(s: string)
    ensures forall k :: 0 <= k < |Lower(s)| ==> !('A' <= Lower(s)[k] <= 'Z')
  {
  }

  lemma StripNoUpper(s: string)
    requires forall k :: 0 <= k < |s| ==> !('A' <= s[k] <= 'Z')
    ensures forall t :: 0 <= t < |Strip(s)| ==> !('A' <= Strip(s)[t] <= 'Z')
  {
    var p := Strip(s);
    var i, j :| 0 <= i <= j <= |s| && p == s[i..j];
    forall t | 0 <= t < |p|
      ensures !('A' <= p[t] <= 'Z')
    {
      assert p[t] == s[i + t];
    }
  }

  /** A whitespace-only setting yields the empty provider, which builds Bedrock with the OpenAI default model. */
  lemma BlankProviderBuildsBedrock(regionEnv: Option<string>)
    ensures Provider(Some(" ")) == ""
    ensures BuildModel(Some(" "), None, regionEnv) ==
            BedrockModel(OpenAIDefaultModel, if regionEnv.Some? then regionEnv.value else DefaultRegion)
  {
    assert Lower(" ") == " ";
    assert LeadingSpaces(" ") == 1;
  }

  /**
   * `StrandsAgentEngine`: its environment settings, the model its agent was
   * last built with, and how many times it has been built.
   */
  class Engine {
    const providerEnv: Option<string>
    const modelEnv: Option<string>
    const regionEnv: Option<string>
    var model: ModelConfig
    var builds: nat

    /** `__init__` builds the agent once. */
    constructor (providerEnv: Option<string>, modelEnv: Option<string>, regionEnv: Option<string>)
      ensures this.providerEnv == providerEnv && this.modelEnv == modelEnv && this.regionEnv == regionEnv
      ensures model == BuildModel(providerEnv, modelEnv, regionEnv) && builds == 1
    {
      this.providerEnv := providerEnv;
      this.modelEnv := modelEnv;
      this.regionEnv := regionEnv;
      model := BuildModel(providerEnv, modelEnv, regionEnv);
      builds := 1;
    }

    /** `_build_agent`, reading the same settings again. */
    method BuildAgent()
      modifies this
      ensures model == BuildModel(providerEnv, modelEnv, regionEnv)
      ensures builds == old(builds) + 1
    {
      model := BuildModel(providerEnv, modelEnv, regionEnv);
      builds := builds + 1;
    }

    /**
     * `generate_stream`, driven by a consumer that stops pulling after the
     * delta at index `stopAfter`, if the stream gets that far. The prompt is
     * the last user turn; the deltas taken are the bridge's, up to that
     * stop; the ending is the bridge's, or none when the generator was left
     * suspended. The agent is rebuilt exactly when the first attempt ran
     * into an expiry that the generator got to, and at most once.
     */
    method GenerateStream(messages: seq<ChatMessage>, cancelAt: Option<nat>, backend: Backend, stopAfter: Option<nat>)
      returns (prompt: string, deltas: seq<string>, outcome: Option<Outcome>)
      modifies this
      ensures prompt == LastUserContent(messages)
      ensures deltas == Taken(Bridge(cancelAt, backend).deltas, stopAfter)
      ensures outcome == if Abandons(Bridge(cancelAt, backend).deltas, stopAfter) then None
                         else Some(Bridge(cancelAt, backend).outcome)
      ensures builds == old(builds) + (if Rebuilds(cancelAt, backend, stopAfter) then 1 else 0)
      ensures model == if Rebuilds(cancelAt, backend, stopAfter) then BuildModel(providerEnv, modelEnv, regionEnv)
                       else old(model)
    {
      prompt := LastUserContent(messages);
      var triedRefresh := false;
      var attempt := backend.initial;
      var start := 0;
      var sofar: seq<string> := [];
      while true
        invariant !triedRefresh ==> attempt == backend.initial && start == 0 && sofar == []
                                    && builds == old(builds) && model == old(model)
        invariant triedRefresh ==> && attempt == backend.rebuilt && start == |backend.initial.events|
                                   && Rebuilds(cancelAt, backend, stopAfter)
                                   && sofar == RunAttempt(backend.initial, 0, cancelAt).0
                                   && builds == old(builds) + 1
                                   && model == BuildModel(providerEnv, modelEnv, regionEnv)
        decreases if triedRefresh then 0 else 1
      {
        var more, end := StreamOnce(attempt, start, cancelAt);
        var yielded := sofar + more;
        if Abandons(yielded, stopAfter) || !(end.Failed? && IsExpiry(end.error) && !triedRefresh) {
          HandOver(cancelAt, backend, stopAfter, triedRefresh, yielded, end);
        }
        if Abandons(yielded, stopAfter) {
          // the consumer took one of these deltas and stopped: the generator is never resumed
          return prompt, yielded[..stopAfter.value + 1], None;
        } else if end.Failed? && IsExpiry(end.error) && !triedRefresh {
          triedRefresh := true;
          BuildAgent();
          sofar := more;
          attempt := backend.rebuilt;
          start := |backend.initial.events|;
        } else {
          // `return` after a normal end or a seen cancel; `raise` for any other error
          return prompt, yielded, Some(Ending(end));
        }
      }
    }
  }
}
