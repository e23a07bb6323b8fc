/**
 * The per-request authentication decision (`check_authentication`): outside
 * Azure every request passes; in Azure the App Service authentication
 * headers must name a signed-in principal of the configured tenant.
 */
module Auth {
  import opened Wrappers

  /**
   * The process configuration the decision reads: whether the process runs
   * in Azure (`WEBSITE_INSTANCE_ID` is set) and `AZURE_TENANT_ID`, which may
   * be unset.
   */
  datatype Environment = Environment(isAzure: bool, tenantId: Option<string>)

  /** Request headers as the functions host keeps them: keyed by lower-cased name. */
  type Headers = map<string, string>

  const PrincipalIdHeader := "X-MS-CLIENT-PRINCIPAL-ID"
  const TenantIdHeader := "X-MS-CLIENT-PRINCIPAL-TENANT-ID"
  const LoginMessage := "Unauthorized - Please log in to access this application"

  function LowerChar(c: char): char
  {
    if 'A' <= c <= 'Z' then (c as int + 32) as char else c
  }

  function Lower(s: string): string
  {
    seq(|s|, i requires 0 <= i < |s| => LowerChar(s[i]))
  }

  /** `req.headers.get(name)`: the name matches whatever its case. */
  function Header(h: Headers, name: string): Option<string>
  {
    var key := Lower(name);
    if key in h then Some(h[key]) else None
  }

  /** How an f-string renders the configured tenant id: `None` when it is unset. */
  function TenantText(t: Option<string>): string
  {
    match t
    case Some(s) => s
    case None => "None"
  }

  function TenantMessage(t: Option<string>): string
  {
    "Unauthorized - Only users from tenant " + TenantText(t) + " are allowed to access this application"
  }

  /** Python's `not x` on the principal-id header: missing or empty. */
  predicate Blank(x: Option<string>)
  {
    x == None || x == Some("")
  }

  /** `check_authentication(req)`: whether the request may proceed, and the message of a refusal. */
  function CheckAuthentication(env: Environment, h: Headers): (r: (bool, string))
    ensures r.0 <==> r.1 == ""
  {
    if !env.isAzure then (true, "")
    else if Blank(Header(h, PrincipalIdHeader)) then (false, LoginMessage)
    else if Header(h, TenantIdHeader) != env.tenantId then (false, TenantMessage(env.tenantId))
    else (true, "")
  }

  /** Local development: every request passes, whatever its headers. */
  lemma OutsideAzureAlwaysPasses(env: Environment, h: Headers)
    requires !env.isAzure
    ensures CheckAuthentication(env, h) == (true, "")
  {
  }

  /**
   * In Azure a missing or empty principal id is refused with the log-in
   * message, before and whatever the tenant header says.
   */
  lemma MissingPrincipalRefused(env: Environment, h: Headers)
    requires env.isAzure && Blank(Header(h, PrincipalIdHeader))
    ensures CheckAuthentication(env, h) == (false, LoginMessage)
  {
  }

  /**
   * In Azure, once a principal id is present, the request passes exactly
   * when the tenant header equals the configured tenant id (an absent header
   * and an unset id compare equal), and a refusal names the configured tenant.
   */
  lemma TenantDecides(env: Environment, h: Headers)
    requires env.isAzure && !Blank(Header(h, PrincipalIdHeader))
    ensures CheckAuthentication(env, h).0 <==> Header(h, TenantIdHeader) == env.tenantId
    ensures !CheckAuthentication(env, h).0 ==> CheckAuthentication(env, h).1 == TenantMessage(env.tenantId)
  {
  }

  /** With no tenant configured and no tenant header sent, a signed-in principal passes. */
  lemma UnsetTenantMatchesAbsentHeader(env: Environment, h: Headers)
    requires env.isAzure && env.tenantId == None
    requires !Blank(Header(h, PrincipalIdHeader)) && Header(h, TenantIdHeader) == None
    ensures CheckAuthentication(env, h) == (true, "")
  {
  }
}
