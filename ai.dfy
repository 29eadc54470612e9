/** `lib/ai.ts`: `generateAIInsights`. The chat-completions call is abstract:
    its outcome is the parameter `reply`. A missing API key is the one error
    that escapes; every failure after it yields a fixed per-locale text. */
module AiLib {
  import opened Archive
  import opened Display

  const PromptAr := "قم " + "بتحليل هذه الصورة وقدم رؤى مفصلة حول محتواها وسياقها وأهميتها. صف العناصر الرئيسية والموضوعات والخصائص البصرية. إذا كانت الصورة تحتوي على نص أو رموز، فقم بوصفها."
  const PromptEn := "Analyze " + "this image and provide detailed insights about its content, context, and significance. Describe the key elements, themes, and visual characteristics. If the image contains text or symbols, describe them."
  const FallbackAr := "تعذر " + "إنشاء رؤى الذكاء الاصطناعي في الوقت الحالي. يرجى المحاولة مرة أخرى لاحقاً."
  const FallbackEn := "Unable " + "to generate AI insights at this time. Please try again later."

  const Model := "gpt-4-vision-preview"
  const MaxTokens := 500

  /** The body of the chat-completions request. */
  datatype ChatRequest = ChatRequest(model: string, prompt: string, imageUrl: DisplayUrl, maxTokens: nat)

  /** What came back: the call threw, a non-ok status, or an ok response
      whose `choices[0].message.content` is readable (`Some`) or not (`None`). */
  datatype Reply = Threw | NotOk | Ok(content: Option<string>)

  datatype Generated =
    | KeyMissing
    | Generated(request: ChatRequest, text: string)

  /** `locale === 'ar'`; an absent locale is not Arabic. */
  predicate IsArabic(locale: Option<string>)
  {
    locale == Some("ar")
  }

  /** The text returned when no insight could be generated. */
  function Fallback(locale: Option<string>): (r: string)
    ensures r == FallbackAr <==> IsArabic(locale)
    ensures r == FallbackEn <==> !IsArabic(locale)
  {
    assert FallbackEn[0] == 'U';
    assert FallbackAr[0] == 'ت';
    if IsArabic(locale) then FallbackAr else FallbackEn
  }

  function RequestFor(img: ArchiveImage, locale: Option<string>): (req: ChatRequest)
    ensures req.model == Model && req.maxTokens == MaxTokens
  {
    ChatRequest(Model, if IsArabic(locale) then PromptAr else PromptEn, ImageUrl(img, 800, None), MaxTokens)
  }

  /** `generateAIInsights(image, locale)` with `OPENAI_API_KEY` as `apiKey`. */
  function GenerateAIInsights(img: ArchiveImage, locale: Option<string>, apiKey: Option<string>, reply: Reply)
      : (r: Generated)
    ensures r.KeyMissing? <==> !Truthy(apiKey)
    ensures r.Generated? ==> r.request == RequestFor(img, locale)
    ensures r.Generated? && reply.Ok? && reply.content.Some? ==> r.text == reply.content.value
    ensures r.Generated? && !(reply.Ok? && reply.content.Some?) ==> r.text == Fallback(locale)
  {
    if !Truthy(apiKey) then KeyMissing
    else
      var request := RequestFor(img, locale);
      match reply
      case Ok(Some(content)) => Generated(request, content)
      case _ => Generated(request, Fallback(locale))
  }

  /** The prompt is the Arabic one exactly for `ar`, and the English one otherwise. */
  lemma PromptChoice(img: ArchiveImage, locale: Option<string>)
    ensures RequestFor(img, locale).prompt == PromptAr <==> locale == Some("ar")
    ensures RequestFor(img, locale).prompt == PromptEn <==> locale != Some("ar")
  {
    assert PromptEn[0] == 'A';
    assert PromptAr[0] == 'ق';
  }

  /** The image sent is `r2Url` when set, otherwise the CMS image 800 wide. */
  lemma RequestImage(img: ArchiveImage, locale: Option<string>)
    ensures RequestFor(img, locale).imageUrl
         == if Truthy(img.r2Url) then Direct(img.r2Url.value) else Cms(img.image.assetRef, 800, None)
  {
  }

  /** With a key, every failure becomes the fallback text of the request's language. */
  lemma FailureYieldsFallback(img: ArchiveImage, locale: Option<string>, apiKey: Option<string>, reply: Reply)
    requires Truthy(apiKey) && !reply.Ok?
    ensures GenerateAIInsights(img, locale, apiKey, reply) == Generated(RequestFor(img, locale), Fallback(locale))
    ensures Fallback(locale) == FallbackAr <==> locale == Some("ar")
  {
  }
}
