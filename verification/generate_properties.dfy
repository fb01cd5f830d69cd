/**
 * Properties of the image-generation route that relate several calls or
 * compare the handler with an independent reference: the inverse of prompt
 * embellishment, the data-URL round trip, the model-table fallback and the
 * mode decision as seen in the handler's response.
 */
module GenerateProperties {
  import opened Wrappers
  import opened Json
  import opened Text
  import opened GenerateRoute

  // ---------------------------------------------------------------------------
  // Embellishment is invertible: the picks can be read back off the result

  /** The first listed prefix (at or after `a`) that `r` starts with, followed by a space. */
  function PrefixPickOf(r: string, a: nat): (k: Option<PrefixPick>)
    requires a <= 5
    ensures k.Some? ==> a <= k.value && Prefixes[k.value] + " " <= r
    ensures k.Some? ==> forall b :: a <= b < k.value ==> !(Prefixes[b] + " " <= r)
    ensures k.None? ==> forall b :: a <= b < 5 ==> !(Prefixes[b] + " " <= r)
    decreases 5 - a
  {
    if a == 5 then None
    else if Prefixes[a] + " " <= r then Some(a)
    else PrefixPickOf(r, a + 1)
  }

  /** The first listed suffix (at or after `a`) that `r` ends with. */
  function SuffixPickOf(r: string, a: nat): (k: Option<SuffixPick>)
    requires a <= 3
    ensures k.Some? ==> a <= k.value && IsSuffix(Suffixes[k.value], r)
    ensures k.Some? ==> forall b :: a <= b < k.value ==> !IsSuffix(Suffixes[b], r)
    ensures k.None? ==> forall b :: a <= b < 3 ==> !IsSuffix(Suffixes[b], r)
    decreases 3 - a
  {
    if a == 3 then None
    else if IsSuffix(Suffixes[a], r) then Some(a)
    else SuffixPickOf(r, a + 1)
  }

  /** Removes a listed prefix and a listed suffix; the reference inverse of `EnhancePrompt`. */
  function StripEmbellishment(r: string): (p: Option<string>)
    ensures p.Some? ==> exists i: PrefixPick, j: SuffixPick :: EnhancePrompt(p.value, true, i, j) == r
  {
    match (PrefixPickOf(r, 0), SuffixPickOf(r, 0))
    case (Some(i), Some(j)) =>
      if |Prefixes[i]| + 1 + |Suffixes[j]| <= |r| then
        var p := r[|Prefixes[i]| + 1..|r| - |Suffixes[j]|];
        Reassemble(r, Prefixes[i] + " ", Suffixes[j]);
        assert EnhancePrompt(p, true, i, j) == r;
        Some(p)
      else None
    case _ => None
  }

  /** A string that starts with `pre` and ends with `suf` is `pre`, its middle, and `suf`. */
  lemma Reassemble(r: string, pre: string, suf: string)
    requires pre <= r && IsSuffix(suf, r) && |pre| + |suf| <= |r|
    ensures r == pre + r[|pre|..|r| - |suf|] + suf
  {
    assert r == r[..|pre|] + r[|pre|..|r| - |suf|] + r[|r| - |suf|..];
  }

  /** No two listed prefixes can both start the same string: their first characters differ. */
  lemma PrefixesDistinguishable(r: string, a: PrefixPick, b: PrefixPick)
    requires Prefixes[a] + " " <= r && Prefixes[b] + " " <= r
    ensures a == b
  {
    assert (Prefixes[a] + " ")[0] == r[0] == (Prefixes[b] + " ")[0];
    assert Prefixes[a][0] == Prefixes[b][0];
  }

  /** No two listed suffixes can both end the same string: their next-to-last characters differ. */
  lemma SuffixesDistinguishable(r: string, a: SuffixPick, b: SuffixPick)
    requires IsSuffix(Suffixes[a], r) && IsSuffix(Suffixes[b], r)
    ensures a == b
  {
    var sa, sb := Suffixes[a], Suffixes[b];
    assert sa[|sa| - 2] == r[|r| - 2] == sb[|sb| - 2];
  }

  /** Embellishing and then stripping gives back the original prompt. */
  lemma {:induction false} EnhanceRoundTrip(prompt: string, i: PrefixPick, j: SuffixPick)
    ensures StripEmbellishment(EnhancePrompt(prompt, true, i, j)) == Some(prompt)
  {
    var r := EnhancePrompt(prompt, true, i, j);
    var ki := PrefixPickOf(r, 0);
    PrefixesDistinguishable(r, ki.value, i);
    var kj := SuffixPickOf(r, 0);
    SuffixesDistinguishable(r, kj.value, j);
    assert r == Prefixes[i] + " " + prompt + Suffixes[j];
    assert r[|Prefixes[i]| + 1..|r| - |Suffixes[j]|] == prompt;
  }

  /** Different prompts never embellish to the same string under the same picks, and picks are recoverable. */
  lemma EnhanceInjective(p1: string, p2: string, i1: PrefixPick, j1: SuffixPick, i2: PrefixPick, j2: SuffixPick)
    requires EnhancePrompt(p1, true, i1, j1) == EnhancePrompt(p2, true, i2, j2)
    ensures p1 == p2 && i1 == i2 && j1 == j2
  {
    var r := EnhancePrompt(p1, true, i1, j1);
    PrefixesDistinguishable(r, i1, i2);
    SuffixesDistinguishable(r, j1, j2);
    EnhanceRoundTrip(p1, i1, j1);
    EnhanceRoundTrip(p2, i2, j2);
  }

  // ---------------------------------------------------------------------------
  // Count, model table and data URLs

  /** Clamping is idempotent: an effective count is its own effective count. */
  lemma ClampCountIdempotent(count: Option<int>)
    ensures ClampCount(Some(ClampCount(count))) == ClampCount(count)
  {
  }

  /** Every key of the table names exactly one entry. */
  lemma ModelKeysDistinct()
    ensures forall i, j :: 0 <= i < j < |Models| ==> Models[i].key != Models[j].key
  {
  }

  /** A known key selects its own entry, and an unknown key the flux-schnell entry. */
  lemma SelectModelByKey(key: string)
    ensures key in ModelKeys() ==> SelectModel(key).key == key && SelectModel(key) in Models
    ensures key !in ModelKeys() ==> SelectModel(key) == Models[0] && Models[0].key == DefaultModelKey
  {
    ModelKeysDistinct();
  }

  /**
   * The model key "constructor" is not in the table, yet the lookup as written
   * finds an inherited member instead of falling back to flux-schnell.
   */
  lemma PrototypeKeyBypassesFallback()
    ensures "constructor" !in ModelKeys()
    ensures SelectModelAsWritten("constructor") == Inherited
    ensures SelectModel("constructor").key == DefaultModelKey
  {
    assert "constructor" != "flux-schnell" && "constructor" != "flux-dev" && "constructor" != "sdxl";
    assert "constructor" != "sdxl-turbo" && "constructor" != "playground-v2" && "constructor" != "realvis-xl";
    assert "constructor" !in ModelKeys();
  }

  /** A data URL with a comma-free header and payload gives back its payload. */
  lemma DataUrlRoundTrip(header: string, payload: string)
    requires ',' !in header && ',' !in payload
    ensures ImagePayload("data:" + header + "," + payload) == Some(payload)
  {
    var s := "data:" + header + "," + payload;
    assert s[..5] == "data:";
    var i := CommaFrom(s, 0);
    assert s[5 + |header|] == ',';
    assert i == 5 + |header|;
    var j := CommaFrom(s, i + 1);
    assert s[i + 1..j] == payload;
  }

  /** Only the piece after the first comma is sent: the payload stops at the next comma. */
  lemma DataUrlStopsAtNextComma(header: string, piece: string, rest: string)
    requires ',' !in header && ',' !in piece
    ensures ImagePayload("data:" + header + "," + piece + "," + rest) == Some(piece)
  {
    var s := "data:" + header + "," + piece + "," + rest;
    assert s[..5] == "data:";
    var i := CommaFrom(s, 0);
    assert s[5 + |header|] == ',';
    assert i == 5 + |header|;
    var j := CommaFrom(s, i + 1);
    assert s[i + 1 + |piece|] == ',';
    assert j == i + 1 + |piece|;
    assert s[i + 1..j] == piece;
  }

  /** A `data:` URL with no comma sends no image at all. */
  lemma DataUrlWithoutComma(image: string)
    requires "data:" <= image && ',' !in image
    ensures ImagePayload(image).None?
  {
  }

  // ---------------------------------------------------------------------------
  // The handler

  /** A rejected prompt is decided before the credential and without any provider call. */
  lemma PromptCheckedFirst(
    req: GenerateRequest, hasToken: bool, picks: Picks,
    p1: (ProviderCall, nat) -> CallOutcome, p2: (ProviderCall, nat) -> CallOutcome)
    requires !IsNonEmptyString(req.prompt)
    ensures HandleGenerate(req, hasToken, picks, p1) == HandleGenerate(req, !hasToken, picks, p2)
    ensures HandleGenerate(req, hasToken, picks, p1).response.status == 400
  {
  }

  /**
   * On success: the mode is img2img exactly when an image is given and the
   * effective model supports it; every call goes to the effective model's URL
   * with the response's prompt; txt2img calls carry no image and img2img calls
   * carry the data-URL payload.
   */
  lemma GeneratedCalls(req: GenerateRequest, hasToken: bool, picks: Picks, provider: (ProviderCall, nat) -> CallOutcome)
    requires HandleGenerate(req, hasToken, picks, provider).response.Generated?
    ensures var x := HandleGenerate(req, hasToken, picks, provider);
      && (x.response.mode == Img2Img <==> Truthy(req.image) && SelectModel(req.model).supportsImg2Img)
      && (forall c :: c in x.calls ==> c.url == SelectModel(req.model).url && c.body.inputs == x.response.prompt)
      && (forall c :: c in x.calls ==> c.body.mode == x.response.mode)
      && (forall c :: c in x.calls ==> c.body.negativePrompt == NegativePrompt(req.negativePrompt))
      && (x.response.mode == Txt2Img ==> forall c :: c in x.calls ==> c.body.image.None?)
      && (x.response.mode == Img2Img ==> req.image.Str? && forall c :: c in x.calls ==> c.body.image == ImagePayload(req.image.s))
  {
  }

  /** With enhancement off the prompt is sent unchanged; with it on the original is inside what is sent. */
  lemma GeneratedPrompt(req: GenerateRequest, hasToken: bool, picks: Picks, provider: (ProviderCall, nat) -> CallOutcome)
    requires HandleGenerate(req, hasToken, picks, provider).response.Generated?
    ensures var r := HandleGenerate(req, hasToken, picks, provider).response;
      && (!EnhanceEnabled(req.enhance) ==> r.prompt == r.originalPrompt)
      && (EnhanceEnabled(req.enhance) ==>
            IsInfix(r.originalPrompt, r.prompt) && StripEmbellishment(r.prompt) == Some(r.originalPrompt))
  {
    var r := HandleGenerate(req, hasToken, picks, provider).response;
    if EnhanceEnabled(req.enhance) {
      EnhanceRoundTrip(req.prompt.s, picks.prefix, picks.suffix);
    }
  }

  /** A truthy image that is not a string, sent to an img2img model, fails the request without a call. */
  lemma NonStringImageFails(req: GenerateRequest, picks: Picks, provider: (ProviderCall, nat) -> CallOutcome)
    requires IsNonEmptyString(req.prompt)
    requires Truthy(req.image) && !req.image.Str? && SelectModel(req.model).supportsImg2Img
    ensures HandleGenerate(req, true, picks, provider) == Exchange(Rejected(500, GenerationFailed), [])
  {
  }

  /** When every call delivers, the request succeeds with one image per counted call. */
  lemma AllDeliveredSucceeds(req: GenerateRequest, picks: Picks, provider: (ProviderCall, nat) -> CallOutcome)
    requires IsNonEmptyString(req.prompt)
    requires !(Truthy(req.image) && SelectModel(req.model).supportsImg2Img && !req.image.Str?)
    requires forall c, i :: provider(c, i).Delivered?
    ensures var x := HandleGenerate(req, true, picks, provider);
      x.response.Generated? && |x.calls| == |x.response.images| == ClampCount(req.count)
  {
  }

  /**
   * The model key "constructor" names an Object.prototype member: as written
   * the request fails without reaching the provider, while the corrected
   * lookup serves it from `flux-schnell`.
   */
  lemma ConstructorKeyFails(req: GenerateRequest, picks: Picks, provider: (ProviderCall, nat) -> CallOutcome)
    requires IsNonEmptyString(req.prompt) && req.model == "constructor"
    requires forall c, i :: provider(c, i).Delivered?
    ensures HandleGenerateAsWritten(req, true, picks, provider) == Exchange(Rejected(500, GenerationFailed), [])
    ensures var x := HandleGenerate(req, true, picks, provider);
      && x.response.Generated?
      && |x.calls| == ClampCount(req.count)
      && forall c :: c in x.calls ==> c.url == Models[0].url
  {
  }

  /** "a red apple", two images, unknown model "flux": two images, txt2img, and the model echoed as asked. */
  lemma RedAppleScenario(picks: Picks, provider: (ProviderCall, nat) -> CallOutcome)
    requires forall c, i :: provider(c, i).Delivered?
    ensures var req := GenerateRequest(Str("a red apple"), Some(2), Undefined, "flux", Bool(false), Undefined);
            var x := HandleGenerate(req, true, picks, provider);
      && x.response.Generated?
      && |x.response.images| == 2
      && x.response.mode == Txt2Img
      && x.response.model == "flux"
      && x.response.prompt == "a red apple"
      && forall c :: c in x.calls ==> c.url == Models[0].url
  {
    var req := GenerateRequest(Str("a red apple"), Some(2), Undefined, "flux", Bool(false), Undefined);
    assert "flux" !in ModelKeys();
    AllDeliveredSucceeds(req, picks, provider);
    GeneratedCalls(req, true, picks, provider);
  }
}
