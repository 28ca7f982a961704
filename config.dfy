/** The gateway's configuration, read from the environment at startup, and
    the startup check that ends the process when a Twilio setting is
    missing. */
module Config {
  import opened Wrappers
  import opened JsString

  /** The environment variables the gateway reads; each may be unset. */
  datatype Environment = Environment(
    smtpPort: Option<String>,
    twilioAccountSid: Option<String>,
    twilioAuthToken: Option<String>,
    twilioPhoneNumber: Option<String>,
    defaultRegion: Option<String>)

  /** `SMTP_PORT || 8025`: the variable's text when set, else the number. */
  datatype Port = FromEnvironment(text: String) | DefaultPort(number: nat)

  const DefaultPortNumber: nat := 8025
  const DefaultRegionCode: String := "US"
  const MissingCredentialsStatus: int := 1

  /** The settings every session reads; immutable once the process runs. */
  datatype Settings = Settings(
    port: Port,
    accountSid: String,
    authToken: String,
    sender: String,
    region: String)

  /** The process either exits with a status or goes on to serve. */
  datatype Startup = Exit(status: int) | Serve(settings: Settings)

  /** `x || fallback` for a string variable. */
  function OrElse(x: Option<String>, fallback: String): String {
    if Truthy(x) then x.value else fallback
  }

  /** Startup exits with status 1 exactly when the account SID, the auth
      token or the sender number is unset or empty; otherwise the settings
      carry them unchanged, and the port and region fall back to 8025 and
      "US" when unset or empty. */
  function Start(env: Environment): (r: Startup)
    ensures r.Exit? <==>
      !Truthy(env.twilioAccountSid) || !Truthy(env.twilioAuthToken) || !Truthy(env.twilioPhoneNumber)
    ensures r.Exit? ==> r.status == 1
    ensures r.Serve? ==>
      Some(r.settings.accountSid) == env.twilioAccountSid &&
      Some(r.settings.authToken) == env.twilioAuthToken &&
      Some(r.settings.sender) == env.twilioPhoneNumber &&
      r.settings.sender != []
    ensures r.Serve? ==>
      r.settings.region != [] &&
      (r.settings.region == DefaultRegionCode <==> !Truthy(env.defaultRegion) || env.defaultRegion == Some(DefaultRegionCode))
    ensures r.Serve? && Truthy(env.defaultRegion) ==> r.settings.region == env.defaultRegion.value
    ensures r.Serve? ==>
      (r.settings.port == DefaultPort(8025) <==> !Truthy(env.smtpPort))
    ensures r.Serve? && Truthy(env.smtpPort) ==> r.settings.port == FromEnvironment(env.smtpPort.value)
  {
    var port := if Truthy(env.smtpPort) then FromEnvironment(env.smtpPort.value) else DefaultPort(DefaultPortNumber);
    var region := OrElse(env.defaultRegion, DefaultRegionCode);
    if !Truthy(env.twilioAccountSid) || !Truthy(env.twilioAuthToken) || !Truthy(env.twilioPhoneNumber) then
      Exit(MissingCredentialsStatus)
    else
      Serve(Settings(port, env.twilioAccountSid.value, env.twilioAuthToken.value,
                     env.twilioPhoneNumber.value, region))
  }
}
