/** The Gemini client (`src/lib/gemini.ts`): the model cascade, the data-URL
    prefix strip, the API-key guard, the prompts, and the two analysis entry
    points. The SDK call, the `FileReader` and `JSON.parse` are parameters:
    a call's outcome is given per model, the reader's result is given as a
    string, and the parser is a function. */
module Gemini {
  import opened Wrappers
  import opened Strings
  import opened Js
  import JsonExtraction

  /** The models tried, in order. */
  const ModelsToTry: seq<string> := ["gemini-2.5-flash", "gemini-2.5-pro", "gemini-1.5-flash-002"]

  const AllFailedMessage := "All Gemini models failed to respond. Please check API key/quota."
  const MissingKeyMessage := "Gemini API Key is missing. Please check .env.local"
  const BillFailurePrefix := "Failed to analyze bill: "
  const AudioFailurePrefix := "Failed to analyze audio: "

  /** The key the SDK client is built with when none is configured. */
  const FallbackKey := "PLACEHOLDER_KEY"

  // ---------------------------------------------------------------------
  // Requests and the cascade
  // ---------------------------------------------------------------------

  /** One element of the `parts` array handed to `generateContent`: one of
      the fixed prompts (whose text `PromptText` gives), or inline media. */
  datatype Part = Instructions(prompt: Prompt) | InlineData(data: string, mimeType: string)

  /** One `generateContent` call: which model, with which parts. */
  datatype Call = Call(model: string, parts: seq<Part>)

  /** What a model's call ends in: the text of its response, or a thrown
      value (from `generateContent`, from awaiting `response`, or from
      `text()`). */
  datatype Outcome = Responded(text: string) | Threw(error: Thrown)

  /** What `generateWithFallback` ends in: a returned string or a throw. */
  datatype CascadeResult = Generated(text: string) | Raised(error: Thrown)

  /** A call that failed with a value whose `message` can be read: the loop
      logs it, records it and moves on. */
  predicate Recoverable(o: Outcome)
  {
    o.Threw? && !o.error.Nullish?
  }

  /** The cascade over the outcomes of the remaining models, with `last` the
      error recorded so far: how many calls are made, and how it ends. A
      response ends it at once, even an empty one. A `null` or `undefined`
      throw ends it too, because logging `error.message` throws a `TypeError`
      from inside the `catch` clause. When every model fails, the last error
      is rethrown if truthy, and otherwise a generic error. */
  function Run(outcomes: seq<Outcome>, last: Thrown): (r: (nat, CascadeResult))
    ensures r.0 <= |outcomes|
    ensures r.1.Raised? ==> Truthy(r.1.error)
    ensures r.1.Generated? ==> 1 <= r.0 && outcomes[r.0 - 1] == Responded(r.1.text)
    ensures forall k :: 0 <= k < r.0 - 1 ==> Recoverable(outcomes[k])
  {
    if outcomes == [] then
      (0, Raised(if Truthy(last) then last else Value(Some(AllFailedMessage))))
    else
      match outcomes[0]
      case Responded(t) => (1, Generated(t))
      case Threw(Nullish(isNull)) => (1, Raised(PropertyOfNullish(isNull, "message")))
      case Threw(e) =>
        var tail := Run(outcomes[1..], e);
        (tail.0 + 1, tail.1)
  }

  /** The cascade over all three models, starting with nothing recorded.
      At least one call is made when there is a model, at most one per
      model. A returned text is the response of the last model called, and
      every model called before it failed recoverably. Whatever escapes is
      truthy; with no model at all it is the generic error. */
  function Cascade(outcomes: seq<Outcome>): (r: (nat, CascadeResult))
    ensures r.0 <= |outcomes| && (outcomes != [] ==> r.0 >= 1)
    ensures r.1.Generated? ==>
      1 <= r.0 && outcomes[r.0 - 1] == Responded(r.1.text)
      && forall k :: 0 <= k < r.0 - 1 ==> Recoverable(outcomes[k])
    ensures r.1.Raised? ==> Truthy(r.1.error)
    ensures outcomes == [] ==> r.1 == Raised(Value(Some(AllFailedMessage)))
  {
    Run(outcomes, Nullish(false))
  }

  /** The first model that responds, after only recoverable failures, wins:
      its text is returned and no later model is called. */
  lemma {:induction false} FirstResponseWins(outcomes: seq<Outcome>, last: Thrown, k: nat)
    requires k < |outcomes| && outcomes[k].Responded?
    requires forall j :: 0 <= j < k ==> Recoverable(outcomes[j])
    ensures Run(outcomes, last) == (k + 1, Generated(outcomes[k].text))
  {
    if k > 0 {
      FirstResponseWins(outcomes[1..], outcomes[0].error, k - 1);
    }
  }

  /** A `null` or `undefined` thrown after only recoverable failures escapes
      the loop as a `TypeError`; no later model is called. */
  lemma {:induction false} NullishThrowEscapes(outcomes: seq<Outcome>, last: Thrown, k: nat)
    requires k < |outcomes| && outcomes[k].Threw? && outcomes[k].error.Nullish?
    requires forall j :: 0 <= j < k ==> Recoverable(outcomes[j])
    ensures Run(outcomes, last) == (k + 1, Raised(PropertyOfNullish(outcomes[k].error.isNull, "message")))
  {
    if k > 0 {
      var rest := outcomes[1..];
      assert rest[k - 1] == outcomes[k];
      NullishThrowEscapes(rest, outcomes[0].error, k - 1);
    }
  }

  /** When every model fails recoverably, every model is called and the last
      failure is rethrown, or the generic error when that failure is falsy. */
  lemma {:induction false} AllFailedRethrowsLast(outcomes: seq<Outcome>, last: Thrown)
    requires outcomes != []
    requires forall j :: 0 <= j < |outcomes| ==> Recoverable(outcomes[j])
    ensures Recoverable(outcomes[|outcomes| - 1]) && var e := outcomes[|outcomes| - 1].error;
      Run(outcomes, last) ==
        (|outcomes|, Raised(if Truthy(e) then e else Value(Some(AllFailedMessage))))
  {
    var rest := outcomes[1..];
    if rest != [] {
      assert rest[|rest| - 1] == outcomes[|outcomes| - 1];
      AllFailedRethrowsLast(rest, outcomes[0].error);
    }
  }

  /** `generateWithFallback`: tries each model in order with the same parts,
      returning the first response's text. `outcomes[k]` is what model `k`
      would produce if called. */
  method GenerateWithFallback(parts: seq<Part>, outcomes: seq<Outcome>)
    returns (calls: seq<Call>, r: CascadeResult)
    requires |outcomes| == |ModelsToTry|
    ensures (|calls|, r) == Cascade(outcomes)
    ensures forall k :: 0 <= k < |calls| ==> calls[k] == Call(ModelsToTry[k], parts)
  {
    var lastError := Nullish(false);
    calls := [];
    var i := 0;
    while i < |ModelsToTry|
      invariant 0 <= i <= |ModelsToTry| && |calls| == i
      invariant forall k :: 0 <= k < i ==> calls[k] == Call(ModelsToTry[k], parts)
      invariant Cascade(outcomes) ==
        (i + Run(outcomes[i..], lastError).0, Run(outcomes[i..], lastError).1)
    {
      calls := calls + [Call(ModelsToTry[i], parts)];
      var rest := outcomes[i..];
      assert rest[1..] == outcomes[i + 1..];
      match outcomes[i]
      case Responded(t) =>
        return calls, Generated(t);
      case Threw(e) =>
        if e.Nullish? {
          return calls, Raised(PropertyOfNullish(e.isNull, "message"));
        }
        lastError := e;
      i := i + 1;
    }
    r := Raised(if Truthy(lastError) then lastError else Value(Some(AllFailedMessage)));
  }

  // ---------------------------------------------------------------------
  // The inline-data part
  // ---------------------------------------------------------------------

  /** `result.split(',')[1] || result`: the text after the first comma, up
      to any second comma, when that piece is non-empty; otherwise the whole
      string. The result is the whole string or a non-empty, comma-free
      piece of it. */
  function StripDataUrlPrefix(result: string): (r: string)
    ensures r == result || (r != "" && ',' !in r)
  {
    var pieces := Split(result, ',');
    OrElse(if |pieces| > 1 then Some(pieces[1]) else None, result)
  }

  /** What `readAsDataURL` produces for base64 content. */
  function DataUrl(mimeType: string, payload: string): string
  {
    "data:" + mimeType + ";base64," + payload
  }

  /** The strip gives back the payload of a data URL whose type has no comma
      and whose payload is non-empty base64 (which never holds a comma). */
  lemma DataUrlPayloadRecovered(mimeType: string, payload: string)
    requires ',' !in mimeType && ',' !in payload && payload != ""
    ensures StripDataUrlPrefix(DataUrl(mimeType, payload)) == payload
  {
    var header := "data:" + mimeType + ";base64";
    assert ',' !in header;
    assert DataUrl(mimeType, payload) == header + [','] + payload;
    SplitAfterFirst(header, payload);
  }

  /** Splitting `header + "," + tail` with comma-free `header` and `tail`
      gives exactly those two pieces. */
  lemma SplitAfterFirst(header: string, tail: string)
    requires ',' !in header && ',' !in tail
    ensures Split(header + [','] + tail, ',') == [header, tail]
  {
    var s := header + [','] + tail;
    assert forall j :: 0 <= j < |header| ==> s[j] == header[j];
    assert s[|header|] == ',';
    assert IndexOf(s, ',') == |header|;
    assert s[..|header|] == header;
    assert s[|header| + 1..] == tail;
    SplitWithoutSeparator(tail, ',');
  }

  /** An empty payload is not recovered: the whole data URL is sent on. */
  lemma EmptyPayloadKeepsWholeUrl(mimeType: string)
    requires ',' !in mimeType
    ensures StripDataUrlPrefix(DataUrl(mimeType, "")) == DataUrl(mimeType, "")
  {
    var header := "data:" + mimeType + ";base64";
    assert ',' !in header;
    assert DataUrl(mimeType, "") == header + [','] + "";
    SplitAfterFirst(header, "");
  }

  /** Raw base64 (no comma) is passed through unchanged. */
  lemma RawBase64Unchanged(s: string)
    requires ',' !in s
    ensures StripDataUrlPrefix(s) == s
  {
    SplitWithoutSeparator(s, ',');
  }

  /** Stripping twice is stripping once. */
  lemma StripIdempotent(s: string)
    ensures var r := StripDataUrlPrefix(s);
      StripDataUrlPrefix(r) == r
  {
    var r := StripDataUrlPrefix(s);
    if r != s {
      RawBase64Unchanged(r);
    }
  }

  /** `blobToGenerativePart`, given what the reader produced for the blob. */
  function BlobToGenerativePart(blob: Blob, readerResult: string): (p: Part)
    ensures p.InlineData? && p.mimeType == blob.mimeType
  {
    InlineData(StripDataUrlPrefix(readerResult), blob.mimeType)
  }

  /** For the data URL of the blob's own type, the part carries the base64
      payload and the blob's type. */
  lemma GenerativePartOfDataUrl(blob: Blob, payload: string)
    requires ',' !in blob.mimeType && ',' !in payload && payload != ""
    ensures BlobToGenerativePart(blob, DataUrl(blob.mimeType, payload)) == InlineData(payload, blob.mimeType)
  {
    DataUrlPayloadRecovered(blob.mimeType, payload);
  }

  // ---------------------------------------------------------------------
  // The key guard and the prompts
  // ---------------------------------------------------------------------

  /** The guard `!API_KEY || API_KEY.includes('PLACEHOLDER')` does not fire:
      the key is set, non-empty and free of the placeholder marker. The key
      the client falls back to, `PLACEHOLDER_KEY`, is never usable. */
  predicate KeyUsable(key: Option<string>)
    ensures KeyUsable(key) ==> key.Some? && key.value != "" && key.value != FallbackKey
  {
    assert IsPrefix("PLACEHOLDER", FallbackKey);
    key.Some? && key.value != "" && !Contains(key.value, "PLACEHOLDER")
  }

  /** The guard in terms of positions: a usable key is a non-empty string in
      which `PLACEHOLDER` occurs nowhere. */
  lemma KeyUsableIff(key: Option<string>)
    ensures KeyUsable(key) <==>
      key.Some? && key.value != "" && forall k: nat :: !OccursAt(key.value, "PLACEHOLDER", k)
  {
    if key.Some? {
      ContainsIffOccurs(key.value, "PLACEHOLDER");
    }
  }

  /** The two languages the entry points accept. */
  type Language = s: string | s == "en" || s == "ta" witness "en"

  /** The bill prompt, with its leading newline, indentation and trailing
      spaces. It does not depend on the language. */
  const BillPrompt: string := "\n    Analyze this TANGEDCO electricity bill for a Coimbatore industrial unit. \n    Strictly use these 2026 Rates:\n    - Normal Hours: ₹7.50 / unit\n    - Peak Hours (06:00-10:00 & 18:00-22:00): ₹9.38 / unit (25% surcharge)\n    - Night Hours (22:00-05:00): ₹7.13 / unit (5% discount)\n\n    Extract/Calculate:\n    1. Total Consumption (Units)\n    2. Peak Hour Charges (if not explicitly shown, calculate based on ~25% usage or provided data)\n    3. Fixed Charges/Demand Charges\n    4. Savings Potential: Calculate cost difference if 20% of Peak Load (₹9.38) is shifted to Night Hours (₹7.13). Saving = (PeakUnits * 0.20) * (9.38 - 7.13).\n\n    Output JSON Only: \n    { \"totalConsumption\": \"value units\", \"peakCharges\": \"₹value\", \"fixedCharges\": \"₹value\", \"savingsPotential\": \"₹value\", \"recommendations\": [\"Technical action 1\", \"Technical action 2\"] }\n    "

  const TamilAudioPrompt: string := "இந்த இயந்திர ஒலியை கேளுங்கள். முடிவு JSON: { status: 'Healthy' | 'Warning' | 'Critical', healthScore: number (0-100), description: 'விளக்கம்', maintenanceTips: [] }."

  const EnglishAudioPrompt: string := "Analyze this machine audio. Return JSON: { status: 'Healthy' | 'Warning' | 'Critical', healthScore: number (0-100), description: 'technical diagnosis', maintenanceTips: ['step 1'] }."

  /** The prompts: the bill prompt, which ignores the language, and the
      audio prompt of a language. */
  datatype Prompt = BillInstructions | AudioInstructions(language: Language)

  /** The text a prompt sends. */
  function PromptText(p: Prompt): string
  {
    match p
    case BillInstructions => BillPrompt
    case AudioInstructions(language) => AudioPromptText(language)
  }

  /** `language === 'ta' ? … : …`: the audio prompt of a language. The
      Tamil prompt is sent exactly when the language is Tamil, and the
      English one exactly when it is English. */
  function AudioPromptText(language: Language): (r: string)
    ensures r == TamilAudioPrompt <==> language == "ta"
    ensures r == EnglishAudioPrompt <==> language == "en"
  {
    assert |TamilAudioPrompt| != |EnglishAudioPrompt|;
    if language == "ta" then TamilAudioPrompt else EnglishAudioPrompt
  }

  // ---------------------------------------------------------------------
  // The entry points
  // ---------------------------------------------------------------------

  /** How the `try` block of an entry point ends after the cascade, with the
      `catch` clause's wrapping: the cascade's text goes through the JSON
      extraction and `parse`; a throw from either becomes an `Error` whose
      message is `prefix` followed by the thrown value's message. */
  function Settle(prefix: string, c: CascadeResult, parse: string -> Result<Json, string>): (r: Result<Json, string>)
    requires c.Raised? ==> Truthy(c.error)
    ensures r.Failure? ==> IsPrefix(prefix, r.error)
    ensures c.Raised? ==> r == Failure(prefix + MessageText(c.error))
    ensures c.Generated? ==> (r.Success? <==> parse(JsonExtraction.JsonString(c.text)).Success?)
  {
    match c
    case Raised(e) => Failure(prefix + MessageText(e))
    case Generated(t) =>
      match parse(JsonExtraction.JsonString(t))
      case Success(v) => Success(v)
      case Failure(m) => Failure(prefix + m)
  }

  /** `analyzeBill`: the key guard (whose error is not wrapped), the image
      part, then the cascade on the bill prompt and the image. The result is
      the parsed value or the message of the thrown `Error`. The language is
      accepted and ignored. */
  method AnalyzeBill(key: Option<string>, image: Blob, readerResult: string, language: Language,
                     outcomes: seq<Outcome>, parse: string -> Result<Json, string>)
    returns (calls: seq<Call>, r: Result<Json, string>)
    requires |outcomes| == |ModelsToTry|
    ensures !KeyUsable(key) ==> calls == [] && r == Failure(MissingKeyMessage)
    ensures KeyUsable(key) ==>
      |calls| == Cascade(outcomes).0 && r == Settle(BillFailurePrefix, Cascade(outcomes).1, parse)
    ensures forall k :: 0 <= k < |calls| ==>
      calls[k] == Call(ModelsToTry[k], [Instructions(BillInstructions), BlobToGenerativePart(image, readerResult)])
  {
    if !KeyUsable(key) {
      return [], Failure(MissingKeyMessage);
    }
    var imagePart := BlobToGenerativePart(image, readerResult);
    var c;
    calls, c := GenerateWithFallback([Instructions(BillInstructions), imagePart], outcomes);
    r := Settle(BillFailurePrefix, c, parse);
  }

  /** `analyzeAudio`: as `analyzeBill`, with the audio part and the prompt
      of the chosen language. */
  method AnalyzeAudio(key: Option<string>, audio: Blob, readerResult: string, language: Language,
                      outcomes: seq<Outcome>, parse: string -> Result<Json, string>)
    returns (calls: seq<Call>, r: Result<Json, string>)
    requires |outcomes| == |ModelsToTry|
    ensures !KeyUsable(key) ==> calls == [] && r == Failure(MissingKeyMessage)
    ensures KeyUsable(key) ==>
      |calls| == Cascade(outcomes).0 && r == Settle(AudioFailurePrefix, Cascade(outcomes).1, parse)
    ensures forall k :: 0 <= k < |calls| ==>
      calls[k] == Call(ModelsToTry[k], [Instructions(AudioInstructions(language)), BlobToGenerativePart(audio, readerResult)])
  {
    if !KeyUsable(key) {
      return [], Failure(MissingKeyMessage);
    }
    var audioPart := BlobToGenerativePart(audio, readerResult);
    var c;
    calls, c := GenerateWithFallback([Instructions(AudioInstructions(language)), audioPart], outcomes);
    r := Settle(AudioFailurePrefix, c, parse);
  }

  /** A bill scan whose first model is down and whose second answers with a
      fenced JSON block: two calls are made, and the block's content is what
      gets parsed. */
  lemma FallbackToSecondModel(e: Thrown, pre: string, inner: string, post: string,
                              parse: string -> Result<Json, string>, third: Outcome)
    requires Truthy(e) && '`' !in pre && '`' !in inner
    ensures var reply := pre + JsonExtraction.FenceOpen + inner + JsonExtraction.FenceClose + post;
      var outcomes := [Threw(e), Responded(reply), third];
      Cascade(outcomes) == (2, Generated(reply)) &&
      Settle(BillFailurePrefix, Cascade(outcomes).1, parse) ==
        (match parse("\n" + inner + "\n")
         case Success(v) => Success(v)
         case Failure(m) => Failure(BillFailurePrefix + m))
  {
    var reply := pre + JsonExtraction.FenceOpen + inner + JsonExtraction.FenceClose + post;
    var outcomes := [Threw(e), Responded(reply), third];
    FirstResponseWins(outcomes, Nullish(false), 1);
    JsonExtraction.FencedBlockExtracted(pre, inner, post);
  }

  /** With every model failing and the last failure a plain `Error`, the
      bill scan reports that error's message behind the bill prefix. */
  lemma AllModelsDown(e1: Thrown, e2: Thrown, m: string, parse: string -> Result<Json, string>)
    requires Truthy(e1) && Truthy(e2)
    ensures var outcomes := [Threw(e1), Threw(e2), Threw(Value(Some(m)))];
      Cascade(outcomes) == (3, Raised(Value(Some(m)))) &&
      Settle(BillFailurePrefix, Cascade(outcomes).1, parse) == Failure(BillFailurePrefix + m)
  {
    var outcomes := [Threw(e1), Threw(e2), Threw(Value(Some(m)))];
    AllFailedRethrowsLast(outcomes, Nullish(false));
  }
}
