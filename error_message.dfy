/**
 * The error panel: a missing or empty message shows nothing; a message that mentions a known
 * failure, in any letter case, is replaced by a friendlier explanation; anything else is shown as it is.
 */
module ErrorMessage {
  import opened Wrappers
  import opened Text

  const ApiKeyExplanation: string := "Lỗi cấu hình hệ thống: API Key không hợp lệ hoặc đã hết hạn. Vui lòng liên hệ quản trị viên để khắc phục."
  const NetworkExplanation: string := "Lỗi kết nối mạng: Không thể kết nối đến máy chủ AI. Vui lòng kiểm tra kết nối internet của bạn và thử lại."
  const OverloadExplanation: string := "Hệ thống tạm thời quá tải hoặc đã đạt giới hạn yêu cầu. Vui lòng thử lại sau ít phút."

  /** The failures the panel recognises, in the order it checks for them. */
  datatype Failure = ApiKeyRejected | NetworkDown | QuotaExhausted | Unrecognised

  /** `message.toLowerCase().includes(phrase)`, for a lower-case phrase. */
  predicate Mentions(message: string, phrase: string)
  {
    Contains(ToLowerAscii(message), phrase)
  }

  predicate MentionsApiKey(message: string)
  {
    Mentions(message, "api key not valid") || Mentions(message, "api key không hợp lệ")
  }

  predicate MentionsNetwork(message: string)
  {
    Mentions(message, "failed to fetch") || Mentions(message, "networkerror")
  }

  predicate MentionsQuota(message: string)
  {
    Mentions(message, "resource has been exhausted") || Mentions(message, "quota")
  }

  /** The first rule that applies wins: the API key, then the network, then the quota. */
  function Classify(message: string): (f: Failure)
    ensures f == ApiKeyRejected <==> MentionsApiKey(message)
    ensures f == NetworkDown <==> !MentionsApiKey(message) && MentionsNetwork(message)
    ensures f == QuotaExhausted <==> !MentionsApiKey(message) && !MentionsNetwork(message) && MentionsQuota(message)
    ensures f == Unrecognised <==> !MentionsApiKey(message) && !MentionsNetwork(message) && !MentionsQuota(message)
  {
    if MentionsApiKey(message) then ApiKeyRejected
    else if MentionsNetwork(message) then NetworkDown
    else if MentionsQuota(message) then QuotaExhausted
    else Unrecognised
  }

  /** What the panel shows, if anything. */
  function DisplayMessage(message: Option<string>): (r: Option<string>)
    ensures r.None? <==> message.None? || message.value == []
    ensures r.Some? && Classify(message.value) == Unrecognised ==> r.value == message.value
    ensures r.Some? && Classify(message.value) == ApiKeyRejected ==> r.value == ApiKeyExplanation
    ensures r.Some? && Classify(message.value) == NetworkDown ==> r.value == NetworkExplanation
    ensures r.Some? && Classify(message.value) == QuotaExhausted ==> r.value == OverloadExplanation
  {
    if message.None? || message.value == [] then None
    else
      match Classify(message.value)
      case ApiKeyRejected => Some(ApiKeyExplanation)
      case NetworkDown => Some(NetworkExplanation)
      case QuotaExhausted => Some(OverloadExplanation)
      case Unrecognised => Some(message.value)
  }

  /** Lower-casing twice is lower-casing once. */
  lemma {:induction false} ToLowerAsciiIdempotent(s: string)
    ensures ToLowerAscii(ToLowerAscii(s)) == ToLowerAscii(s)
  {
    var once := ToLowerAscii(s);
    forall i | 0 <= i < |s|
      ensures ToLowerAscii(once)[i] == once[i]
    {
      assert once[i] == AsciiLower(s[i]);
    }
  }

  /** The panel does not care about letter case: a lower-cased message is classified the same. */
  lemma ClassifyIgnoresCase(message: string)
    ensures Classify(ToLowerAscii(message)) == Classify(message)
  {
    ToLowerAsciiIdempotent(message);
  }

  /** A message that names an invalid API key gets the configuration explanation, whatever else it mentions. */
  lemma ApiKeyTakesPriority(message: string)
    requires Contains(ToLowerAscii(message), "api key not valid")
    ensures DisplayMessage(Some(message)) == Some(ApiKeyExplanation)
  {
    ContainsLength(ToLowerAscii(message), "api key not valid");
    assert Mentions(message, "api key not valid");
    assert Classify(message) == ApiKeyRejected;
  }
}
