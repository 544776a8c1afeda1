/**
 * The contract-analysis call to the generative model: API-key check, prompt construction,
 * bounded exponential-backoff retry on transient errors, empty-answer check and the
 * message the caller finally sees. The model itself is an oracle; waiting is not modelled,
 * each delay is returned as a number of milliseconds.
 */
module Gemini {
  import opened Wrappers
  import opened Text
  import opened Types

  /** One part of the prompt: text, or a file inlined as MIME type and base64 data. */
  datatype Part = TextPart(text: string) | InlineData(mimeType: string, data: string)

  /** The instruction sent alongside an attached file. */
  const FileInstruction: string :=
    "Por favor, analise este documento de contrato de aluguel e identifique riscos e cláusulas abusivas conforme suas instruções."

  const MissingKeyMessage: string :=
    "Chave de API do Gemini não configurada. A análise não pode ser realizada no momento."

  const EmptyAnswerMessage: string := "A resposta da IA veio vazia. Tente novamente."

  const UnknownFailureMessage: string := "Falha desconhecida na API."

  /** The retry budget and first delay of the initial call. */
  const InitialRetries: nat := 3
  const InitialDelay: nat := 1000

  /** A thrown error: its `name` and `message`. */
  datatype Thrown = Thrown(name: string, message: string)

  /** The outcome of one `generateContent` call: the answer's text, or a thrown error. */
  datatype CallOutcome = Responded(text: string) | Failed(error: Thrown)

  /** The model as an oracle: the outcome of the `k`-th call (from 0) with the given prompt. */
  type Model = (seq<Part>, nat) -> CallOutcome

  /** What the retry loop did: its result, how many calls it made, and the delays it waited. */
  datatype Retry = Retry(result: Result<string, Thrown>, calls: nat, delays: seq<nat>)

  function Pow2(k: nat): (p: nat)
    ensures p >= 1
  {
    if k == 0 then 1 else 2 * Pow2(k - 1)
  }

  /** The prompt: the text alone, or the inlined file followed by the fixed instruction. */
  function PromptParts(content: Content): (parts: seq<Part>)
    ensures content.TextContent? ==> parts == [TextPart(content.text)]
    ensures content.FileContent? ==>
      parts == [InlineData(content.attachment.mimeType, content.attachment.data), TextPart(FileInstruction)]
  {
    match content
    case TextContent(text) => [TextPart(text)]
    case FileContent(a) => [InlineData(a.mimeType, a.data), TextPart(FileInstruction)]
  }

  /** An error worth retrying: its message mentions 503 or "overloaded" (case-sensitive). */
  predicate IsTransient(e: Thrown) {
    Contains(e.message, "503") || Contains(e.message, "overloaded")
  }

  /**
   * `generateWithRetry(retries, delay)` starting at call number `attempt`. A call that
   * answers ends the loop with that answer; a transient failure with retries left waits
   * `delay` and tries again with one retry fewer and twice the delay; any other failure
   * is thrown.
   */
  function GenerateWithRetry(model: Model, parts: seq<Part>, attempt: nat, retries: nat, delay: nat): (r: Retry)
    decreases retries
    ensures 1 <= r.calls <= retries + 1
    ensures |r.delays| == r.calls - 1
    ensures forall k :: 0 <= k < |r.delays| ==> r.delays[k] == delay * Pow2(k)
    ensures forall k :: attempt <= k < attempt + r.calls - 1 ==>
      model(parts, k).Failed? && IsTransient(model(parts, k).error)
    ensures model(parts, attempt + r.calls - 1).Responded? ==>
      r.result == Success(model(parts, attempt + r.calls - 1).text)
    ensures model(parts, attempt + r.calls - 1).Failed? ==>
      && r.result == Failure(model(parts, attempt + r.calls - 1).error)
      && (!IsTransient(model(parts, attempt + r.calls - 1).error) || r.calls == retries + 1)
  {
    match model(parts, attempt)
    case Responded(text) => Retry(Success(text), 1, [])
    case Failed(e) =>
      if retries > 0 && IsTransient(e) then
        var rest := GenerateWithRetry(model, parts, attempt + 1, retries - 1, delay * 2);
        DoubledSchedule(delay, rest.delays);
        Retry(rest.result, rest.calls + 1, [delay] + rest.delays)
      else Retry(Failure(e), 1, [])
  }

  /** Waiting `delay` before a schedule that starts at twice the delay continues the doubling. */
  lemma DoubledSchedule(delay: nat, ds: seq<nat>)
    requires forall k :: 0 <= k < |ds| ==> ds[k] == delay * 2 * Pow2(k)
    ensures forall k :: 0 <= k < |ds| + 1 ==> ([delay] + ds)[k] == delay * Pow2(k)
  {
    forall k | 0 <= k < |ds| + 1 ensures ([delay] + ds)[k] == delay * Pow2(k) {
      if k > 0 {
        calc {
          ([delay] + ds)[k];
          ds[k - 1];
          delay * 2 * Pow2(k - 1);
          delay * (2 * Pow2(k - 1));
        }
      }
    }
  }

  /** With the initial budget: at most four calls, and the waits are a prefix of 1000, 2000, 4000 ms. */
  lemma InitialRetrySchedule(model: Model, parts: seq<Part>)
    ensures var r := GenerateWithRetry(model, parts, 0, InitialRetries, InitialDelay);
      r.calls <= 4 && r.delays <= [1000, 2000, 4000]
  {
    var r := GenerateWithRetry(model, parts, 0, InitialRetries, InitialDelay);
    assert Pow2(1) == 2 && Pow2(2) == 4;
    assert forall k :: 0 <= k < |r.delays| ==> r.delays[k] == [1000, 2000, 4000][k];
  }

  /**
   * Call `j` ends the loop: it answers, fails permanently, or fails with no retry left.
   */
  predicate EndsLoop(model: Model, parts: seq<Part>, retries: nat, j: nat) {
    model(parts, j).Responded? || !IsTransient(model(parts, j).error) || j == retries
  }

  /**
   * When every call before `j` fails transiently and call `j` ends the loop, the loop makes
   * exactly `j + 1` calls and its result is call `j`'s answer or error.
   */
  lemma LoopEndsAt(model: Model, parts: seq<Part>, retries: nat, delay: nat, j: nat)
    requires j <= retries && EndsLoop(model, parts, retries, j)
    requires forall k :: 0 <= k < j ==> model(parts, k).Failed? && IsTransient(model(parts, k).error)
    ensures var r := GenerateWithRetry(model, parts, 0, retries, delay);
      && r.calls == j + 1
      && r.result == match model(parts, j)
                     case Responded(text) => Success(text)
                     case Failed(e) => Failure(e)
  {
    var r := GenerateWithRetry(model, parts, 0, retries, delay);
  }

  /** The first call that answers ends the loop, and its answer is the result. */
  lemma FirstAnswerWins(model: Model, parts: seq<Part>, retries: nat, delay: nat, j: nat)
    requires j <= retries
    requires model(parts, j).Responded?
    requires forall k :: 0 <= k < j ==> model(parts, k).Failed? && IsTransient(model(parts, k).error)
    ensures var r := GenerateWithRetry(model, parts, 0, retries, delay);
      r.calls == j + 1 && r.result == Success(model(parts, j).text)
  {
    LoopEndsAt(model, parts, retries, delay, j);
  }

  /** Error.prototype.toString. */
  function ErrorToString(e: Thrown): string {
    if e.name == "" then e.message
    else if e.message == "" then e.name
    else e.name + ": " + e.message
  }

  /** The message of the rethrown error: `message || toString() || fixed fallback`; never empty. */
  function Describe(e: Thrown): (m: string)
    ensures m != ""
    ensures e.message != "" ==> m == e.message
  {
    if e.message != "" then e.message
    else if ErrorToString(e) != "" then ErrorToString(e)
    else UnknownFailureMessage
  }

  /**
   * `analyzeContractText(content)` with `apiKey` the configured key: the report text, or
   * the message of the error it throws. Without a key no call is made.
   */
  function AnalyzeContract(apiKey: Option<string>, content: Content, model: Model): (r: Result<string, string>)
    ensures apiKey.None? || apiKey.value == "" ==> r == Failure(MissingKeyMessage)
    ensures r.Success? ==> r.value != ""
    ensures r.Failure? ==> r.error != ""
    ensures apiKey.Some? && apiKey.value != "" ==>
      var g := GenerateWithRetry(model, PromptParts(content), 0, InitialRetries, InitialDelay).result;
      && (r.Success? <==> g.Success? && g.value != "")
      && (r.Success? ==> r.value == g.value)
      && (g.Success? && g.value == "" ==> r == Failure(EmptyAnswerMessage))
      && (g.Failure? ==> r == Failure(Describe(g.error)))
  {
    if apiKey.None? || apiKey.value == "" then Failure(Describe(Thrown("Error", MissingKeyMessage)))
    else
      var retry := GenerateWithRetry(model, PromptParts(content), 0, InitialRetries, InitialDelay);
      match retry.result
      case Failure(e) => Failure(Describe(e))
      case Success(text) =>
        if text == "" then Failure(Describe(Thrown("Error", EmptyAnswerMessage))) else Success(text)
  }

  /**
   * The answer of the call that ends the loop, after any number of transient failures, is
   * returned as is, unless it is empty.
   */
  lemma AnswerIsReturned(apiKey: Option<string>, content: Content, model: Model, j: nat)
    requires apiKey.Some? && apiKey.value != ""
    requires j <= InitialRetries
    requires forall k :: 0 <= k < j ==>
      model(PromptParts(content), k).Failed? && IsTransient(model(PromptParts(content), k).error)
    requires model(PromptParts(content), j).Responded?
    ensures var text := model(PromptParts(content), j).text;
      AnalyzeContract(apiKey, content, model) == if text == "" then Failure(EmptyAnswerMessage) else Success(text)
  {
    FirstAnswerWins(model, PromptParts(content), InitialRetries, InitialDelay, j);
  }

  /**
   * A failure that ends the loop, because it is not transient or the retries are used up,
   * is rethrown with its message when that is non-empty.
   */
  lemma PermanentFailureIsRethrown(apiKey: Option<string>, content: Content, model: Model, j: nat)
    requires apiKey.Some? && apiKey.value != ""
    requires j <= InitialRetries
    requires forall k :: 0 <= k < j ==>
      model(PromptParts(content), k).Failed? && IsTransient(model(PromptParts(content), k).error)
    requires model(PromptParts(content), j).Failed?
    requires !IsTransient(model(PromptParts(content), j).error) || j == InitialRetries
    requires model(PromptParts(content), j).error.message != ""
    ensures AnalyzeContract(apiKey, content, model) == Failure(model(PromptParts(content), j).error.message)
  {
    LoopEndsAt(model, PromptParts(content), InitialRetries, InitialDelay, j);
  }

  /** Different contents never give the same prompt: the model sees exactly what was submitted. */
  lemma PromptDeterminesContent(c1: Content, c2: Content)
    requires PromptParts(c1) == PromptParts(c2)
    ensures c1 == c2
  {
  }
}
