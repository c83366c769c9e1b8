/** The provider registry: the case-insensitive mapping from a provider name
    to the supported-provider enumeration and back, the character check for
    Base64 text, and the choice of provider a model is constructed with. */
module Providers {
  import opened Wrappers
  import opened Text

  /** `SupportedProviders`, in declaration order. */
  datatype SupportedProviders =
    | OPENAI
    | AZURE
    | OLLAMA
    | ANTHROPIC
    | UNSUPPORTED_PROVIDER
    | SUPPORTED_PROVIDER_COUNT

  predicate IsSupported(p: SupportedProviders) {
    p == OPENAI || p == AZURE || p == OLLAMA || p == ANTHROPIC
  }

  /** The lower-case names that select a provider; `default` and the empty
      name select OpenAI. */
  predicate IsKnownName(name: string) {
    name in {"openai", "default", "", "azure", "ollama", "anthropic"}
  }

  /** `GetProviderType`: lower-case the name, then match it. */
  function GetProviderType(provider: string): (p: SupportedProviders)
    ensures p != SUPPORTED_PROVIDER_COUNT
    ensures IsSupported(p) <==> IsKnownName(Lower(provider))
  {
    var name := Lower(provider);
    if name == "openai" || name == "default" || name == "" then OPENAI
    else if name == "azure" then AZURE
    else if name == "ollama" then OLLAMA
    else if name == "anthropic" then ANTHROPIC
    else UNSUPPORTED_PROVIDER
  }

  /** `GetProviderName`: the canonical name of a supported provider, empty
      otherwise. */
  function GetProviderName(p: SupportedProviders): (name: string)
    ensures name == "" <==> !IsSupported(p)
    ensures Lower(name) == name
  {
    LowerFixed("openai");
    LowerFixed("azure");
    LowerFixed("ollama");
    LowerFixed("anthropic");
    match p
    case OPENAI => "openai"
    case AZURE => "azure"
    case OLLAMA => "ollama"
    case ANTHROPIC => "anthropic"
    case _ => ""
  }

  /** Text without upper-case ASCII letters is its own lower-case form. */
  lemma LowerFixed(w: string)
    requires forall i :: 0 <= i < |w| ==> !('A' <= w[i] <= 'Z')
    ensures Lower(w) == w
  {
  }

  /** Lower-casing after upper-casing is lower-casing. */
  lemma LowerUpper(s: string)
    ensures Lower(Upper(s)) == Lower(s)
  {
    assert forall i :: 0 <= i < |s| ==> Lower(Upper(s))[i] == LowerChar(UpperChar(s[i]));
  }

  /** Lower-casing is idempotent. */
  lemma LowerLower(s: string)
    ensures Lower(Lower(s)) == Lower(s)
  {
    assert forall i :: 0 <= i < |s| ==> Lower(Lower(s))[i] == LowerChar(LowerChar(s[i]));
  }

  /** The letter case of a provider name does not matter. */
  lemma ProviderTypeIgnoresCase(s: string)
    ensures GetProviderType(Upper(s)) == GetProviderType(s)
    ensures GetProviderType(Lower(s)) == GetProviderType(s)
  {
    LowerUpper(s);
    LowerLower(s);
  }

  /** The canonical name of every supported provider maps back to it. */
  lemma ProviderTypeOfName(p: SupportedProviders)
    requires IsSupported(p)
    ensures GetProviderType(GetProviderName(p)) == p
  {
  }

  /** A supported provider's name, in any letter case, other than the two
      aliases of OpenAI, is its canonical name. */
  lemma ProviderNameOfType(s: string)
    requires IsSupported(GetProviderType(s)) && Lower(s) != "default" && Lower(s) != ""
    ensures GetProviderName(GetProviderType(s)) == Lower(s)
  {
  }

  /** The characters of `[A-Za-z0-9+/=]`. */
  predicate IsBase64Char(c: char) {
    ('A' <= c <= 'Z') || ('a' <= c <= 'z') || ('0' <= c <= '9') || c == '+' || c == '/' || c == '='
  }

  /** `is_base64`: a full match of `^[A-Za-z0-9+/=]+$`, so the text is
      non-empty. */
  predicate IsBase64(s: string) {
    |s| > 0 && forall i :: 0 <= i < |s| ==> IsBase64Char(s[i])
  }

  /** Where a model's provider comes from: a test factory, a shared test
      provider, or the adapter for a supported provider. */
  datatype ProviderKind = FromFactory | SharedMock | Native(provider: SupportedProviders)

  /** The two test hooks a model consults before the provider name. */
  datatype Mocks = Mocks(factory: bool, shared: bool)

  const NO_MOCKS: Mocks := Mocks(false, false)

  /** `Model::ConstructProvider`. */
  function ConstructProvider(mocks: Mocks, providerName: string): (r: Result<ProviderKind>)
    ensures mocks.factory ==> r == Ok(FromFactory)
    ensures !mocks.factory && mocks.shared ==> r == Ok(SharedMock)
    ensures r.Ok? && r.value.Native? ==>
      !mocks.factory && !mocks.shared && IsSupported(r.value.provider) && r.value.provider == GetProviderType(providerName)
    ensures r.Err? <==> !mocks.factory && !mocks.shared && !IsKnownName(Lower(providerName))
    ensures r.Err? ==> r.error == "Unsupported provider: " + providerName
  {
    if mocks.factory then Ok(FromFactory)
    else if mocks.shared then Ok(SharedMock)
    else
      var p := GetProviderType(providerName);
      if IsSupported(p) then Ok(Native(p))
      else Err("Unsupported provider: " + providerName)
  }
}
