/**
 * The image-generation route (`POST /api/generate`): the model table, prompt
 * embellishment, and the pure request normalisation around the fan-out of
 * provider calls. The provider is a function parameter mapping each issued
 * call (and its position in the fan-out) to its outcome; the handler returns
 * the calls it issued together with the response.
 */
module GenerateRoute {
  import opened Wrappers
  import opened Json
  import opened Text
  import opened Binary

  // ---------------------------------------------------------------------------
  // Model table

  datatype ModelEntry = ModelEntry(key: string, url: string, supportsImg2Img: bool)

  /** `MODELS`, in declaration order (which is also `Object.keys` order). */
  const Models: seq<ModelEntry> := [
    ModelEntry("flux-schnell", "https://router.huggingface.co/hf-inference/models/black-forest-labs/FLUX.1-schnell", false),
    ModelEntry("flux-dev", "https://router.huggingface.co/hf-inference/models/black-forest-labs/FLUX.1-dev", false),
    ModelEntry("sdxl", "https://router.huggingface.co/hf-inference/models/stabilityai/stable-diffusion-xl-base-1.0", true),
    ModelEntry("sdxl-turbo", "https://router.huggingface.co/hf-inference/models/stabilityai/sdxl-turbo", true),
    ModelEntry("playground-v2", "https://router.huggingface.co/hf-inference/models/playgroundai/playground-v2.5-1024px-aesthetic", false),
    ModelEntry("realvis-xl", "https://router.huggingface.co/hf-inference/models/SG161222/RealVisXL_V4.0", true)
  ]

  const DefaultModelKey: string := "flux-schnell"

  /** The keys of the table, in order: the response's `available_models`. */
  function ModelKeys(): (ks: seq<string>)
    ensures |ks| == |Models|
    ensures forall i :: 0 <= i < |Models| ==> ks[i] == Models[i].key
  {
    seq(|Models|, i requires 0 <= i < |Models| => Models[i].key)
  }

  /** Position of the first entry at or after `from` whose key is `key`. */
  function ModelIndex(key: string, from: nat): (r: Option<nat>)
    requires from <= |Models|
    ensures r.Some? ==> from <= r.value < |Models| && Models[r.value].key == key
    ensures r.None? ==> forall i :: from <= i < |Models| ==> Models[i].key != key
    decreases |Models| - from
  {
    if from == |Models| then None
    else if Models[from].key == key then Some(from)
    else ModelIndex(key, from + 1)
  }

  /** `MODELS[model] || MODELS["flux-schnell"]`, reading own properties only. */
  function SelectModel(key: string): (e: ModelEntry)
    ensures e in Models
    ensures key in ModelKeys() ==> e.key == key
    ensures key !in ModelKeys() ==> e.key == DefaultModelKey
  {
    match ModelIndex(key, 0)
    case Some(i) => Models[i]
    case None => Models[0]
  }

  /** What `MODELS[key]` yields in JavaScript: an own entry, or a member inherited from Object.prototype. */
  datatype Lookup = TableEntry(entry: ModelEntry) | Inherited

  /** The names every object literal inherits from Object.prototype (all truthy). */
  const PrototypeMembers: set<string> := {
    "constructor", "__proto__", "__defineGetter__", "__defineSetter__",
    "__lookupGetter__", "__lookupSetter__", "hasOwnProperty", "isPrototypeOf",
    "propertyIsEnumerable", "toLocaleString", "toString", "valueOf"
  }

  /**
   * `MODELS[model] || MODELS["flux-schnell"]` as written: an inherited member
   * is truthy, so it wins over the fallback and leaves the selected model
   * without a `url` or a `supportsImg2Img` flag.
   */
  function SelectModelAsWritten(key: string): (r: Lookup)
    ensures key in ModelKeys() ==> r == TableEntry(SelectModel(key))
    ensures key !in ModelKeys() && key in PrototypeMembers ==> r.Inherited?
    ensures key !in ModelKeys() && key !in PrototypeMembers ==> r.TableEntry? && r.entry.key == DefaultModelKey
  {
    match ModelIndex(key, 0)
    case Some(i) => TableEntry(Models[i])
    case None => if key in PrototypeMembers then Inherited else TableEntry(Models[0])
  }

  // ---------------------------------------------------------------------------
  // Prompt embellishment

  const Prefixes: seq<string> := [
    "award-winning professional photograph,",
    "masterpiece digital artwork,",
    "high-end artistic render,",
    "cinematic film still,",
    "editorial magazine photography,"
  ]

  const Suffixes: seq<string> := [
    ", highly detailed, professional lighting, 8k resolution, sharp focus",
    ", artstation trending, hyperrealistic, detailed textures",
    ", photorealistic, studio quality, masterful composition"
  ]

  /** The random picks `Math.floor(Math.random() * length)`, as indices. */
  type PrefixPick = i: nat | i < 5
  type SuffixPick = j: nat | j < 3

  datatype Picks = Picks(prefix: PrefixPick, suffix: SuffixPick)

  /** `enhancePrompt(prompt, bypass)`. */
  function EnhancePrompt(prompt: string, enabled: bool, i: PrefixPick, j: SuffixPick): (r: string)
    ensures !enabled ==> r == prompt
    ensures enabled ==> Prefixes[i] + " " <= r && IsSuffix(Suffixes[j], r) && IsInfix(prompt, r)
    ensures enabled ==> |r| == |Prefixes[i]| + 1 + |prompt| + |Suffixes[j]|
  {
    if !enabled then prompt
    else
      var r := Prefixes[i] + " " + prompt + Suffixes[j];
      assert r[|Prefixes[i]| + 1..][..|prompt|] == prompt;
      r
  }

  /** The `enhance` field after its destructuring default `true`: only `undefined` takes the default. */
  predicate EnhanceEnabled(enhance: Value)
    ensures enhance.Undefined? ==> EnhanceEnabled(enhance)
    ensures enhance.Null? || enhance == Bool(false) || enhance == Str("") ==> !EnhanceEnabled(enhance)
    ensures Truthy(enhance) ==> EnhanceEnabled(enhance)
    ensures !enhance.Undefined? && !Truthy(enhance) ==> !EnhanceEnabled(enhance)
  {
    enhance.Undefined? || Truthy(enhance)
  }

  // ---------------------------------------------------------------------------
  // Request normalisation

  /** `Math.min(Math.max(Number(count) || 1, 1), 4)`; `None` stands for NaN. */
  function ClampCount(count: Option<int>): (n: int)
    ensures 1 <= n <= 4
    ensures count.Some? && 1 <= count.value <= 4 ==> n == count.value
    ensures count.Some? && count.value > 4 ==> n == 4
    ensures count.None? || count.value < 1 ==> n == 1
  {
    var c := if count.None? || count.value == 0 then 1 else count.value;
    var atLeastOne := if c < 1 then 1 else c;
    if atLeastOne > 4 then 4 else atLeastOne
  }

  const DefaultNegativePrompt: string :=
    "blurry, low quality, distorted, deformed, ugly, bad anatomy, watermark, signature, text"

  /** `negative_prompt || DEFAULT`. */
  function NegativePrompt(given: Value): (r: Value)
    ensures Truthy(r)
    ensures Truthy(given) ==> r == given
    ensures !Truthy(given) ==> r == Str(DefaultNegativePrompt)
  {
    if Truthy(given) then given else Str(DefaultNegativePrompt)
  }

  /** Position of the first comma at or after `from`, or `|s|`. */
  function CommaFrom(s: string, from: nat): (i: nat)
    requires from <= |s|
    ensures from <= i <= |s|
    ensures ',' !in s[from..i]
    ensures i < |s| ==> s[i] == ','
    decreases |s| - from
  {
    if from == |s| || s[from] == ',' then from
    else
      var i := CommaFrom(s, from + 1);
      assert s[from..i] == [s[from]] + s[from + 1..i];
      i
  }

  /** `s.split(",")[1]`: the piece between the first and second comma, undefined without a comma. */
  function SecondPiece(s: string): (r: Option<string>)
    ensures r.None? <==> ',' !in s
    ensures r.Some? ==> ',' !in r.value
    ensures r.Some? ==> forall i :: 0 <= i < |s| && s[i] == ',' && ',' !in s[..i] ==>
              r.value == s[i + 1..] || r.value + "," <= s[i + 1..]
  {
    var i := CommaFrom(s, 0);
    if i == |s| then
      assert s[0..i] == s;
      None
    else
      var j := CommaFrom(s, i + 1);
      assert s[..i] == s[0..i];
      assert forall k :: i < k <= |s| ==> s[..k][i] == ',';
      assert j < |s| ==> s[i + 1..j] + "," <= s[i + 1..];
      Some(s[i + 1..j])
  }

  /** The `image` parameter sent in img2img mode; `None` means the key is left out of the JSON body. */
  function ImagePayload(image: string): (r: Option<string>)
    ensures !("data:" <= image) ==> r == Some(image)
    ensures "data:" <= image ==> (r.None? <==> ',' !in image)
    ensures "data:" <= image && r.Some? ==> ',' !in r.value
    ensures "data:" <= image && r.Some? ==> forall i :: 0 <= i < |image| && image[i] == ',' && ',' !in image[..i] ==>
              r.value == image[i + 1..] || r.value + "," <= image[i + 1..]
  {
    if "data:" <= image then SecondPiece(image) else Some(image)
  }

  // ---------------------------------------------------------------------------
  // Provider calls and the all-or-nothing join

  datatype Mode = Txt2Img | Img2Img

  /** The JSON body of one provider call (the numeric tuning parameters are not modelled). */
  datatype ProviderBody = ProviderBody(inputs: string, mode: Mode, image: Option<string>, negativePrompt: Value)

  datatype ProviderCall = ProviderCall(url: string, body: ProviderBody)

  /** A call either delivers image bytes or fails (non-ok status, or a rejected fetch or body read). */
  datatype CallOutcome = Delivered(bytes: Bytes) | HttpFailure(status: int, text: string) | Threw

  /**
   * The body each per-image callback builds. In img2img mode a truthy image that is
   * not a string has no `startsWith`, so every callback throws before its fetch.
   */
  function BuildBody(mode: Mode, image: Value, inputs: string, negative: Value): (r: Option<ProviderBody>)
    ensures r.None? <==> mode == Img2Img && !image.Str?
    ensures r.Some? ==> r.value.inputs == inputs && r.value.mode == mode && r.value.negativePrompt == negative
    ensures r.Some? && mode == Txt2Img ==> r.value.image.None?
    ensures r.Some? && mode == Img2Img ==> r.value.image == ImagePayload(image.s)
  {
    match mode
    case Txt2Img => Some(ProviderBody(inputs, Txt2Img, None, negative))
    case Img2Img =>
      if image.Str? then Some(ProviderBody(inputs, Img2Img, ImagePayload(image.s), negative)) else None
  }

  /** `Promise.all`: every outcome delivered gives the images in call order, any failure gives none. */
  function JoinAll(outcomes: seq<CallOutcome>): (r: Option<seq<Bytes>>)
    ensures r.Some? <==> forall i :: 0 <= i < |outcomes| ==> outcomes[i].Delivered?
    ensures r.Some? ==> |r.value| == |outcomes|
    ensures r.Some? ==> forall i :: 0 <= i < |outcomes| ==> r.value[i] == outcomes[i].bytes
  {
    if |outcomes| == 0 then Some([])
    else match outcomes[0]
      case Delivered(b) =>
        (match JoinAll(outcomes[1..])
         case Some(rest) => Some([b] + rest)
         case None => None)
      case _ => None
  }

  // ---------------------------------------------------------------------------
  // The handler

  /** The request body after destructuring defaults (`model` defaults to "flux-schnell"). */
  datatype GenerateRequest = GenerateRequest(
    prompt: Value,
    count: Option<int>,
    image: Value,
    model: string,
    enhance: Value,
    negativePrompt: Value)

  datatype GenerateResponse =
    | Generated(
        images: seq<Bytes>,
        prompt: string,
        originalPrompt: string,
        count: int,
        model: string,
        mode: Mode,
        availableModels: seq<string>)
    | Rejected(status: int, error: string)

  /** The response together with the provider calls the handler issued. */
  datatype Exchange = Exchange(response: GenerateResponse, calls: seq<ProviderCall>)

  const PromptRequired: string := "Prompt is required"
  const TokenMissing: string := "HF_TOKEN not configured"
  const GenerationFailed: string := "Failed to generate image"

  /** Mode decision: img2img needs both an image and a model that supports it. */
  function ModeFor(image: Value, selected: ModelEntry): (m: Mode)
    ensures m == Img2Img <==> Truthy(image) && selected.supportsImg2Img
  {
    if Truthy(image) && selected.supportsImg2Img then Img2Img else Txt2Img
  }

  /**
   * `POST /api/generate` once the model table has been consulted, with the
   * credential as a flag and the provider as a parameter. An `Inherited`
   * lookup leaves the selected model without a `url` and without img2img
   * support: every per-image callback then hands `fetch` an undefined URL,
   * which rejects before any request reaches the provider.
   */
  function HandleGenerateWith(
    req: GenerateRequest, hasToken: bool, picks: Picks, provider: (ProviderCall, nat) -> CallOutcome, lookup: Lookup)
    : (x: Exchange)
    ensures !IsNonEmptyString(req.prompt) ==> x == Exchange(Rejected(400, PromptRequired), [])
    ensures IsNonEmptyString(req.prompt) && !hasToken ==> x == Exchange(Rejected(500, TokenMissing), [])
    ensures IsNonEmptyString(req.prompt) && hasToken && lookup.Inherited? ==>
              x == Exchange(Rejected(500, GenerationFailed), [])
    ensures IsNonEmptyString(req.prompt) && hasToken && lookup.TableEntry? ==>
              var mode := ModeFor(req.image, lookup.entry);
              && (mode == Img2Img && !req.image.Str? ==> x == Exchange(Rejected(500, GenerationFailed), []))
              && ((mode == Img2Img ==> req.image.Str?) ==> |x.calls| == ClampCount(req.count))
              && (forall c :: c in x.calls ==> c.url == lookup.entry.url && c.body.mode == mode)
              && (forall c :: c in x.calls ==>
                    Some(c.body) == BuildBody(mode, req.image,
                      EnhancePrompt(req.prompt.s, EnhanceEnabled(req.enhance), picks.prefix, picks.suffix),
                      NegativePrompt(req.negativePrompt)))
              && (x.response.Generated? ==> x.response.mode == mode)
    ensures x.response.Generated? || x.response == Rejected(400, PromptRequired)
         || x.response == Rejected(500, TokenMissing) || x.response == Rejected(500, GenerationFailed)
    ensures x.response.Generated? ==>
              && |x.response.images| == |x.calls| == x.response.count == ClampCount(req.count)
              && x.response.model == req.model
              && x.response.originalPrompt == req.prompt.s
              && x.response.availableModels == ModelKeys()
    ensures x.response.Generated? ==>
              forall i :: 0 <= i < |x.calls| ==>
                provider(x.calls[i], i).Delivered? && x.response.images[i] == provider(x.calls[i], i).bytes
    ensures (exists i :: 0 <= i < |x.calls| && !provider(x.calls[i], i).Delivered?) <==>
              x.calls != [] && x.response == Rejected(500, GenerationFailed)
    ensures (&& IsNonEmptyString(req.prompt) && hasToken && x.calls != []
             && forall i :: 0 <= i < |x.calls| ==> provider(x.calls[i], i).Delivered?)
            ==> x.response.Generated?
  {
    if !IsNonEmptyString(req.prompt) then Exchange(Rejected(400, PromptRequired), [])
    else
      var prompt := req.prompt.s;
      var imageCount := ClampCount(req.count);
      if !hasToken then Exchange(Rejected(500, TokenMissing), [])
      else
        match lookup
        case Inherited => Exchange(Rejected(500, GenerationFailed), [])
        case TableEntry(selected) =>
          var mode := ModeFor(req.image, selected);
          var enhanced := EnhancePrompt(prompt, EnhanceEnabled(req.enhance), picks.prefix, picks.suffix);
          var negative := NegativePrompt(req.negativePrompt);
          match BuildBody(mode, req.image, enhanced, negative)
          case None => Exchange(Rejected(500, GenerationFailed), [])
          case Some(body) =>
            var calls := seq(imageCount, _ => ProviderCall(selected.url, body));
            var outcomes := seq(imageCount, i requires 0 <= i < imageCount => provider(calls[i], i));
            assert forall i :: 0 <= i < imageCount ==> outcomes[i] == provider(calls[i], i);
            match JoinAll(outcomes)
            case None => Exchange(Rejected(500, GenerationFailed), calls)
            case Some(images) =>
              Exchange(Generated(images, enhanced, prompt, imageCount, req.model, mode, ModelKeys()), calls)
  }

  /**
   * The handler with the corrected lookup: one provider call per counted
   * image whenever the request gets past validation, and a generation
   * failure only when the image cannot be sent or a call fails.
   */
  function HandleGenerate(
    req: GenerateRequest, hasToken: bool, picks: Picks, provider: (ProviderCall, nat) -> CallOutcome): (x: Exchange)
    ensures !IsNonEmptyString(req.prompt) ==> x == Exchange(Rejected(400, PromptRequired), [])
    ensures IsNonEmptyString(req.prompt) && !hasToken ==> x == Exchange(Rejected(500, TokenMissing), [])
    ensures IsNonEmptyString(req.prompt) && hasToken ==>
              (|x.calls| == ClampCount(req.count)
               <==> ModeFor(req.image, SelectModel(req.model)) == Img2Img ==> req.image.Str?)
    ensures x.calls == [] || |x.calls| == ClampCount(req.count)
    ensures forall c :: c in x.calls ==> c.url == SelectModel(req.model).url
    ensures x.response == Rejected(500, GenerationFailed) ==>
              || (exists i :: 0 <= i < |x.calls| && !provider(x.calls[i], i).Delivered?)
              || (ModeFor(req.image, SelectModel(req.model)) == Img2Img && !req.image.Str?)
    ensures x.response.Generated? ==>
              && |x.response.images| == |x.calls| == x.response.count == ClampCount(req.count)
              && x.response.model == req.model
              && x.response.originalPrompt == req.prompt.s
              && x.response.availableModels == ModelKeys()
    ensures x.response.Generated? ==>
              forall i :: 0 <= i < |x.calls| ==>
                provider(x.calls[i], i).Delivered? && x.response.images[i] == provider(x.calls[i], i).bytes
    ensures (exists i :: 0 <= i < |x.calls| && !provider(x.calls[i], i).Delivered?) ==>
              x.response == Rejected(500, GenerationFailed)
    ensures (&& IsNonEmptyString(req.prompt) && hasToken && x.calls != []
             && forall i :: 0 <= i < |x.calls| ==> provider(x.calls[i], i).Delivered?)
            ==> x.response.Generated?
    ensures forall c :: c in x.calls ==>
              && c.body.inputs == EnhancePrompt(req.prompt.s, EnhanceEnabled(req.enhance), picks.prefix, picks.suffix)
              && c.body.negativePrompt == NegativePrompt(req.negativePrompt)
              && c.body.mode == ModeFor(req.image, SelectModel(req.model))
              && (c.body.mode == Img2Img ==> req.image.Str? && c.body.image == ImagePayload(req.image.s))
              && (c.body.mode == Txt2Img ==> c.body.image.None?)
  {
    HandleGenerateWith(req, hasToken, picks, provider, TableEntry(SelectModel(req.model)))
  }

  /**
   * The handler as written: a model key naming an Object.prototype member
   * ends in a generation failure with no provider call; every other key is
   * handled exactly as with the corrected lookup.
   */
  function HandleGenerateAsWritten(
    req: GenerateRequest, hasToken: bool, picks: Picks, provider: (ProviderCall, nat) -> CallOutcome): (x: Exchange)
    ensures req.model in ModelKeys() || req.model !in PrototypeMembers ==>
              x == HandleGenerate(req, hasToken, picks, provider)
    ensures IsNonEmptyString(req.prompt) && hasToken && req.model !in ModelKeys() && req.model in PrototypeMembers ==>
              x == Exchange(Rejected(500, GenerationFailed), [])
  {
    HandleGenerateWith(req, hasToken, picks, provider, SelectModelAsWritten(req.model))
  }
}
