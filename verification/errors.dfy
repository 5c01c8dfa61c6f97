/** The fault classification shared by both `catch` blocks of the client:
    a caught value becomes one fixed user-facing text and an error code. */
module Errors {
  import opened Wrappers
  import opened Text
  import opened ChatTypes

  /** The four error codes, in the order the ladder tries them. */
  datatype ErrorKind = ApiKeyError | QuotaExceeded | NetworkError | UnknownError {

    /** The string stored in `GeminiResponse.error`; reading it back gives
        this kind, so a caller can tell the failure from the code alone. */
    function Code(): (code: string)
      ensures ParseCode(code) == Some(this)
    {
      match this
      case ApiKeyError => "API_KEY_ERROR"
      case QuotaExceeded => "QUOTA_EXCEEDED"
      case NetworkError => "NETWORK_ERROR"
      case UnknownError => "UNKNOWN_ERROR"
    }

    /** The text shown to the user in place of a reply; each kind has its
        own text, so the reply alone also tells the failures apart. */
    function UserText(): (text: string)
      ensures KindOfText(text) == Some(this)
    {
      match this
      case ApiKeyError => ApiKeyText
      case QuotaExceeded => QuotaText
      case NetworkError => NetworkText
      case UnknownError => UnknownText
    }
  }

  /** The four fixed user-facing texts, one per kind. */
  const ApiKeyText := "There seems to be an issue with the API configuration. Please check your settings."
  const QuotaText := "I'm experiencing high demand right now. Please try again in a moment."
  const NetworkText :=
    "I'm having trouble connecting right now. Please check your internet connection and try again."
  const UnknownText :=
    "I'm experiencing some technical difficulties. Please try again, and if the problem persists, try restarting the app."

  /** Reference inverse of `Code`: `None` for any string that is not a code. */
  function ParseCode(code: string): Option<ErrorKind> {
    if code == "API_KEY_ERROR" then Some(ApiKeyError)
    else if code == "QUOTA_EXCEEDED" then Some(QuotaExceeded)
    else if code == "NETWORK_ERROR" then Some(NetworkError)
    else if code == "UNKNOWN_ERROR" then Some(UnknownError)
    else None
  }

  /** Reference inverse of `UserText`: the kind whose fixed text `text` is. */
  function KindOfText(text: string): Option<ErrorKind> {
    if text == ApiKeyText then Some(ApiKeyError)
    else if text == QuotaText then Some(QuotaExceeded)
    else if text == NetworkText then Some(NetworkError)
    else if text == UnknownText then Some(UnknownError)
    else None
  }

  /** No two kinds share a code. */
  lemma CodesDistinct(a: ErrorKind, b: ErrorKind)
    requires a.Code() == b.Code()
    ensures a == b
  {
  }

  /** The substring ladder, first match wins: "API key", then "quota" or
      "limit", then "network" or "fetch". Matching is case-sensitive, and a
      thrown value that is not an `Error` has no message to match. */
  function Classify(f: Fault): (k: ErrorKind)
    ensures k == ApiKeyError <==> f.ErrorObj? && Contains(f.message, "API key")
    ensures k == QuotaExceeded <==>
      && f.ErrorObj?
      && !Contains(f.message, "API key")
      && (Contains(f.message, "quota") || Contains(f.message, "limit"))
    ensures k == NetworkError <==>
      && f.ErrorObj?
      && !Contains(f.message, "API key")
      && !Contains(f.message, "quota") && !Contains(f.message, "limit")
      && (Contains(f.message, "network") || Contains(f.message, "fetch"))
    ensures f.NonError? ==> k == UnknownError
  {
    match f
    case NonError => UnknownError
    case ErrorObj(message) =>
      if Contains(message, "API key") then ApiKeyError
      else if Contains(message, "quota") || Contains(message, "limit") then QuotaExceeded
      else if Contains(message, "network") || Contains(message, "fetch") then NetworkError
      else UnknownError
  }

  /** What a `catch` block returns for a caught value: the fixed text of its
      kind, and always an error code. */
  function CaughtResponse(f: Fault): (r: GeminiResponse)
    ensures r.error == Some(Classify(f).Code())
    ensures r.text == Classify(f).UserText()
  {
    GeminiResponse(Classify(f).UserText(), Some(Classify(f).Code()))
  }

  /** One rung of the ladder: the kind reported when any needle matches. */
  datatype Rule = Rule(needles: seq<string>, kind: ErrorKind)

  /** The ladder as a table, in priority order. */
  const Ladder: seq<Rule> := [
    Rule(["API key"], ApiKeyError),
    Rule(["quota", "limit"], QuotaExceeded),
    Rule(["network", "fetch"], NetworkError)
  ]

  predicate Fires(rule: Rule, message: string) {
    exists i :: 0 <= i < |rule.needles| && Contains(message, rule.needles[i])
  }

  /** The kind of the first rule that fires, `UnknownError` if none does. */
  function FirstFiring(rules: seq<Rule>, message: string): ErrorKind {
    if |rules| == 0 then UnknownError
    else if Fires(rules[0], message) then rules[0].kind
    else FirstFiring(rules[1..], message)
  }

  /** The hand-written ladder is the table read top to bottom. */
  lemma ClassifyFollowsLadder(message: string)
    ensures Classify(ErrorObj(message)) == FirstFiring(Ladder, message)
  {
    var r0 := Ladder[0];
    var r1 := Ladder[1];
    var r2 := Ladder[2];
    assert Fires(r0, message) <==> Contains(message, "API key") by {
      assert r0.needles[0] == "API key";
    }
    assert Fires(r1, message) <==> Contains(message, "quota") || Contains(message, "limit") by {
      assert r1.needles[0] == "quota" && r1.needles[1] == "limit";
    }
    assert Fires(r2, message) <==> Contains(message, "network") || Contains(message, "fetch") by {
      assert r2.needles[0] == "network" && r2.needles[1] == "fetch";
    }
    var l1 := Ladder[1..];
    var l2 := l1[1..];
    var l3 := l2[1..];
    assert l3 == [];
    assert l1[0] == r1 && l2[0] == r2;
    assert FirstFiring(l2, message) == if Fires(r2, message) then NetworkError else FirstFiring(l3, message);
    assert FirstFiring(l1, message) == if Fires(r1, message) then QuotaExceeded else FirstFiring(l2, message);
  }

  /** "API key" anywhere in the message decides the kind, whatever else the
      message contains. */
  lemma ApiKeyDominates(before: string, after: string)
    ensures Classify(ErrorObj(before + "API key" + after)) == ApiKeyError
  {
    ContainsInfix(before, "API key", after);
  }

  /** Without "API key", "quota" anywhere decides the kind, even next to
      "network" or "fetch". */
  lemma QuotaDominatesNetwork(before: string, after: string)
    requires !Contains(before + "quota" + after, "API key")
    ensures Classify(ErrorObj(before + "quota" + after)) == QuotaExceeded
  {
    ContainsInfix(before, "quota", after);
  }

  /** A message naming both an API key problem and a network problem is an
      API key error. */
  lemma ApiKeyAndNetworkExample(m: string)
    requires m == "API key not valid; network unreachable"
    ensures Classify(ErrorObj(m)) == ApiKeyError
  {
    assert m == [] + "API key" + m[7..];
    ApiKeyDominates([], m[7..]);
  }

  /** A message lacking some character of every needle falls through every
      rung; `a` to `e` index the missing characters of "API key", "quota",
      "limit", "network" and "fetch". */
  lemma MissingCharsIsUnknown(m: string, a: nat, b: nat, c: nat, d: nat, e: nat)
    requires a < 7 && "API key"[a] !in m
    requires b < 5 && "quota"[b] !in m
    requires c < 5 && "limit"[c] !in m
    requires d < 7 && "network"[d] !in m
    requires e < 5 && "fetch"[e] !in m
    ensures Classify(ErrorObj(m)) == UnknownError
  {
    MissingCharNotContained(m, "API key", a);
    MissingCharNotContained(m, "quota", b);
    MissingCharNotContained(m, "limit", c);
    MissingCharNotContained(m, "network", d);
    MissingCharNotContained(m, "fetch", e);
  }

  /** Matching is case-sensitive: a capitalised "Quota" is not "quota",
      and the fault falls through to unknown. */
  lemma CapitalisedQuotaIsUnknown(m: string)
    requires m == "Quota exceeded"
    ensures Classify(ErrorObj(m)) == UnknownError
  {
    MissingCharsIsUnknown(m, 0, 0, 0, 0, 0);
  }

  /** Matching is case-sensitive: a lower-case "api key" is not "API key". */
  lemma LowerCaseApiKeyIsUnknown(m: string)
    requires m == "Invalid api key"
    ensures Classify(ErrorObj(m)) == UnknownError
  {
    MissingCharsIsUnknown(m, 0, 0, 2, 3, 0);
  }
}
