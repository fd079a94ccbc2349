/** The shared records of the chat application: feature keys, messages, attachments, articles, analysis results, users. */
module Types {
  import opened Wrappers
  import opened Json
  import opened Text

  /** The six features; each key's string value is its own name. */
  datatype FeatureKey = AnalyzeDocument | GenericDraft | ExtractMultimedia | NewsAI | LiveTranscription | AILawLookup

  /** The string value of a feature key, as stored in composite history keys. */
  function FeatureKeyValue(k: FeatureKey): (r: string)
    ensures |r| > 0 && '_' !in r
  {
    match k
    case AnalyzeDocument => "AnalyzeDocument"
    case GenericDraft => "GenericDraft"
    case ExtractMultimedia => "ExtractMultimedia"
    case NewsAI => "NewsAI"
    case LiveTranscription => "LiveTranscription"
    case AILawLookup => "AILawLookup"
  }

  /** Distinct keys have distinct string values. */
  lemma FeatureKeyValueInjective(a: FeatureKey, b: FeatureKey)
    requires FeatureKeyValue(a) == FeatureKeyValue(b)
    ensures a == b
  {
    assert FeatureKeyValue(a)[..2] == FeatureKeyValue(b)[..2];
    if |FeatureKeyValue(a)| == 6 || |FeatureKeyValue(a)| == 12 {
      assert FeatureKeyValue(a)[0] == FeatureKeyValue(b)[0];
    }
  }

  datatype Role = User | Model | System

  datatype AttachmentKind = File | Image | Url | Audio

  /** `data` is base64 for files and images, the address for URLs; `mimeType` and `name` are optional. */
  datatype Attachment = Attachment(kind: AttachmentKind, data: string, mimeType: Option<string>, name: Option<string>)

  datatype NewsArticle = NewsArticle(title: string, summary: Option<string>, url: string, publicationDate: Option<string>)

  datatype GroundingWeb = GroundingWeb(uri: Option<string>, title: Option<string>)

  datatype GroundingChunk = GroundingChunk(web: Option<GroundingWeb>)

  datatype QueryType = TextQuery | FileQuery | UrlQuery

  /** `extractedUrlsFromText` holds whatever the reply's array held: its elements are not checked. */
  datatype AnalysisResult = AnalysisResult(
    tasks: string,
    extractedUrlsFromText: seq<Json>,
    groundingWebSources: seq<GroundingChunk>,
    originalUserQuery: string,
    userQueryType: QueryType,
    rawResponse: Option<string>)

  /** A transcript entry; an absent `isLoading` reads as false everywhere, so it is a plain flag here. */
  datatype ChatMessage = ChatMessage(
    id: string,
    role: Role,
    content: string,
    timestamp: int,
    isLoading: bool,
    attachment: Option<Attachment>,
    analysisData: Option<AnalysisResult>,
    newsArticles: Option<seq<NewsArticle>>)

  /** The text and optional attachment of a turn handed to the chat service. */
  datatype ChatGenerationContent = ChatGenerationContent(text: string, attachment: Option<Attachment>)

  datatype UserProfile = UserProfile(id: string, name: string)

  /** A feature card: its key, its title and, for a feature hosted elsewhere, the address to open. */
  datatype FeatureDetail = FeatureDetail(key: FeatureKey, title: string, externalUrl: Option<string>)

  /** JavaScript truthiness of an optional string: present and non-empty. */
  predicate Truthy(o: Option<string>)
  {
    o.Some? && o.value != []
  }

  /** `o || fallback` for an optional string. */
  function OrElse(o: Option<string>, fallback: string): (r: string)
    ensures Truthy(o) ==> r == o.value
    ensures !Truthy(o) ==> r == fallback
  {
    if Truthy(o) then o.value else fallback
  }
}
