/** The configuration checks made once before polling starts. Each failed
    check ends the process with exit status 1; the checks run in a fixed
    order and the first failure decides the reported error. */
module Startup {
  import opened Wrappers
  import opened Records

  /** The placeholder webhook URL of the shipped configuration template. */
  const WebhookPlaceholder: string := "ВАШ_URL_ВЕБХУКА"

  /** The settings the checks read. `searches` is None when the value is
      absent or not an array. */
  datatype Config = Config(
    webhookUrl: Setting,
    apiKey: Setting,
    userId: Setting,
    searches: Option<seq<SearchConfig>>)

  datatype StartupError = WebhookNotSet | CredentialsNotSet | SearchesNotSet

  predicate WebhookReady(c: Config) {
    Truthy(c.webhookUrl) && c.webhookUrl != Text(WebhookPlaceholder)
  }

  predicate CredentialsReady(c: Config) {
    Truthy(c.apiKey) && Truthy(c.userId)
  }

  predicate SearchesReady(c: Config) {
    c.searches.Some? && |c.searches.value| > 0
  }

  /** The first failed check, or None when polling may start. */
  function CheckConfig(c: Config): (err: Option<StartupError>)
    ensures err.None? <==> WebhookReady(c) && CredentialsReady(c) && SearchesReady(c)
    ensures err == Some(WebhookNotSet) <==> !WebhookReady(c)
    ensures err == Some(CredentialsNotSet) <==> WebhookReady(c) && !CredentialsReady(c)
    ensures err == Some(SearchesNotSet) <==> WebhookReady(c) && CredentialsReady(c) && !SearchesReady(c)
  {
    if !Truthy(c.webhookUrl) || c.webhookUrl == Text(WebhookPlaceholder) then Some(WebhookNotSet)
    else if !Truthy(c.apiKey) || !Truthy(c.userId) then Some(CredentialsNotSet)
    else if c.searches.None? || |c.searches.value| == 0 then Some(SearchesNotSet)
    else None
  }
}
