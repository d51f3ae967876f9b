/** The plugin class `woprsk\WPMailFrom`: it overrides the "From" address and
    name of outgoing mail, rewrites the home URL in message bodies, and
    patches `SERVER_NAME` for the length of one send. */
module MailFrom {
  import opened Php
  import opened Strings
  import opened Hooks
  import opened Server

  /** The local part of the default from-address. */
  const DefaultUsername: string := "no-reply"

  /** The priority of the plugin's own filters: late, so that they win. */
  const LatePriority: int := 999

  /** The priority of the `SERVER_NAME` cleanup: before the from-address filter. */
  const CleanupPriority: int := 1

  const FromFilter := Registration(Filter, "wp_mail_from", "wpMailFrom", LatePriority)
  const FromNameFilter := Registration(Filter, "wp_mail_from_name", "wpMailFromName", LatePriority)
  const ServerVarFilter := Registration(Filter, "wp_mail", "setServerVar", LatePriority)
  const BodyFilter := Registration(Filter, "wp_mail", "wpMailBody", LatePriority)
  const SetupAction := Registration(Action, "wp_loaded", "setupVars", DefaultPriority)
  const CleanupFilter := Registration(Filter, "wp_mail_from", "unsetServerVar", CleanupPriority)

  /** What the host tells about the site once it is loaded: `parse_url`'s host
      of the blog URL (none when the URL has no host) and the blog name, or, on
      a network, the network's domain and site name. */
  datatype Site =
    | SingleSite(urlHost: Option<string>, blogName: string)
    | Multisite(networkDomain: string, networkName: string)

  /** True when a configuration constant is defined and its validator accepts it. */
  predicate Accepted(setting: Option<string>, valid: string -> bool)
    ensures setting.None? ==> !Accepted(setting, valid)
    ensures setting.Some? ==> (Accepted(setting, valid) <==> valid(setting.value))
  {
    setting.Some? && valid(setting.value)
  }

  /** The registrations the constructor makes, in order: the three mail-from
      filters only for an accepted `WP_MAIL_FROM`, the body filter only for an
      accepted `WP_MAIL_HOME`, and the setup action always. */
  function ConstructorHooks(fromOk: bool, homeOk: bool): (hooks: seq<Registration>)
    ensures FromFilter in hooks <==> fromOk
    ensures FromNameFilter in hooks <==> fromOk
    ensures ServerVarFilter in hooks <==> fromOk
    ensures BodyFilter in hooks <==> homeOk
    ensures CleanupFilter !in hooks
    ensures |hooks| == 1 + (if fromOk then 3 else 0) + (if homeOk then 1 else 0)
    ensures hooks[|hooks| - 1] == SetupAction
  {
    (if fromOk then [FromFilter, FromNameFilter, ServerVarFilter] else [])
    + (if homeOk then [BodyFilter] else [])
    + [SetupAction]
  }

  /** The site's domain: the network's domain verbatim, or the URL host with
      one leading `www.` removed; a URL without a host gives "" (the null host
      that `preg_replace` turns into an empty string). */
  function SiteDomain(site: Site): (d: string)
    ensures site.Multisite? ==> d == site.networkDomain
    ensures site.SingleSite? && site.urlHost.None? ==> d == ""
    ensures site.SingleSite? && site.urlHost.Some? ==>
              if WwwPrefix <= site.urlHost.value then WwwPrefix + d == site.urlHost.value
              else d == site.urlHost.value
  {
    match site
    case Multisite(networkDomain, _) => networkDomain
    case SingleSite(None, _) => ""
    case SingleSite(Some(host), _) => StripWww(host)
  }

  /** The from name: the network's site name, or the blog name. */
  function SiteName(site: Site): (n: string)
    ensures site.Multisite? ==> n == site.networkName
    ensures site.SingleSite? ==> n == site.blogName
  {
    match site
    case Multisite(_, networkName) => networkName
    case SingleSite(_, blogName) => blogName
  }

  /** The from-address after setup: a non-empty configured address is kept,
      an empty one (in PHP's sense) becomes `username@domain`. */
  function FromAddress(current: string, username: string, domain: string): (r: string)
    ensures !Empty(current) ==> r == current
    ensures Empty(current) ==> r == username + "@" + domain
    ensures !Empty(r)
  {
    if !Empty(current) then current
    else
      var derived := username + "@" + domain;
      assert derived[|username|] == '@';
      derived
  }

  /** Once derived, the from-address is never derived again: a second setup,
      whatever the site, keeps it. */
  lemma FromAddressSettled(current: string, username: string, domain: string, username': string, domain': string)
    ensures FromAddress(FromAddress(current, username, domain), username', domain') == FromAddress(current, username, domain)
  {
  }

  class WPMailFrom {
    /** Local part of the default from-address. */
    var username: string
    /** The from-address: `WP_MAIL_FROM`, or derived at setup. */
    var emailFrom: string
    /** The from name, derived at setup. */
    var fromName: string
    /** `WP_MAIL_HOME`: the URL that replaces the home URL in message bodies. */
    var emailHomeUrl: string
    /** The site's domain, derived at setup. */
    var domain: string

    /** Reads the two configuration constants (each absent when not defined),
        checks them with the host's email and URL validators and registers
        the callbacks they enable. */
    constructor (wpMailFrom: Option<string>, isEmail: string -> bool,
                 wpMailHome: Option<string>, isUrl: string -> bool,
                 registry: Registry)
      modifies registry
      ensures username == DefaultUsername && fromName == "" && domain == ""
      ensures emailFrom == if Accepted(wpMailFrom, isEmail) then wpMailFrom.value else ""
      ensures emailHomeUrl == if Accepted(wpMailHome, isUrl) then wpMailHome.value else ""
      ensures registry.log == old(registry.log) + ConstructorHooks(Accepted(wpMailFrom, isEmail), Accepted(wpMailHome, isUrl))
    {
      username := DefaultUsername;
      emailFrom := "";
      fromName := "";
      emailHomeUrl := "";
      domain := "";
      new;
      if Accepted(wpMailFrom, isEmail) {
        emailFrom := wpMailFrom.value;
        registry.AddFilter("wp_mail_from", "wpMailFrom", LatePriority);
        registry.AddFilter("wp_mail_from_name", "wpMailFromName", LatePriority);
        registry.AddFilter("wp_mail", "setServerVar", LatePriority);
      }
      if Accepted(wpMailHome, isUrl) {
        emailHomeUrl := wpMailHome.value;
        registry.AddFilter("wp_mail", "wpMailBody", LatePriority);
      }
      registry.AddAction("wp_loaded", "setupVars", DefaultPriority);
    }

    /** Derives the domain, the from name and, unless one is configured, the
        from-address. */
    method SetupVars(site: Site)
      modifies this`domain, this`fromName, this`emailFrom
      ensures domain == SiteDomain(site)
      ensures fromName == SiteName(site)
      ensures emailFrom == FromAddress(old(emailFrom), username, domain)
    {
      domain := SiteDomain(site);
      fromName := SiteName(site);
      emailFrom := FromAddress(emailFrom, username, domain);
    }

    /** The `wp_mail_from` filter: the proposed address is ignored. */
    function WpMailFrom(email: string): (r: string)
      reads this
      ensures r == emailFrom
    {
      emailFrom
    }

    /** The `wp_mail_from_name` filter: the proposed name is ignored. */
    function WpMailFromName(name: string): (r: string)
      reads this
      ensures r == fromName
    {
      fromName
    }

    /** True when the body filter rewrites: a replacement URL is configured and
        the `message` attribute is set and is a string. */
    predicate RewritesBody(atts: map<string, Value>)
      reads this
      ensures Empty(emailHomeUrl) ==> !RewritesBody(atts)
      ensures !Empty(emailHomeUrl) ==>
                (RewritesBody(atts) <==> "message" in atts && atts["message"].Str?)
    {
      !Empty(emailHomeUrl) && IsSet(atts, "message") && atts["message"].Str?
    }

    /** The `wp_mail` body filter: the occurrences of the home URL that a
        left-to-right, non-overlapping scan of the message finds are replaced
        by `emailHomeUrl`; no other attribute changes. */
    function WpMailBody(atts: map<string, Value>, homeUrl: string): (r: map<string, Value>)
      reads this
      ensures r.Keys == atts.Keys
      ensures forall k :: k in atts && k != "message" ==> r[k] == atts[k]
      ensures !RewritesBody(atts) ==> r == atts
      ensures RewritesBody(atts) ==> r["message"] == Str(StrReplace(homeUrl, emailHomeUrl, atts["message"].s))
    {
      if RewritesBody(atts) then
        atts["message" := Str(StrReplace(homeUrl, emailHomeUrl, atts["message"].s))]
      else atts
    }

    /** The `wp_mail` workaround filter: when `SERVER_NAME` is not set it is set
        to the domain and the cleanup is registered on `wp_mail_from` at
        priority 1; the attributes pass through. */
    method SetServerVar(atts: map<string, Value>, server: Env, registry: Registry) returns (r: map<string, Value>)
      modifies server, registry
      ensures r == atts
      ensures server.vars == WithServerName(old(server.vars), domain)
      ensures registry.log == old(registry.log) + if IsSet(old(server.vars), ServerName) then [] else [CleanupFilter]
    {
      if !IsSet(server.vars, ServerName) {
        server.vars := server.vars[ServerName := Str(domain)];
        registry.AddFilter("wp_mail_from", "unsetServerVar", CleanupPriority);
      }
      r := atts;
    }

    /** The cleanup filter on `wp_mail_from`: `SERVER_NAME` is unset if it is
        set; the proposed address passes through. */
    method UnsetServerVar(fromEmail: string, server: Env) returns (r: string)
      modifies server
      ensures r == fromEmail
      ensures server.vars == WithoutServerName(old(server.vars))
    {
      if IsSet(server.vars, ServerName) {
        server.vars := server.vars - {ServerName};
      }
      r := fromEmail;
    }
  }

  /** Without a replacement URL, or without a string message, the body filter
      returns the attributes as they came. */
  lemma BodyUntouchedUnlessConfigured(p: WPMailFrom, atts: map<string, Value>, homeUrl: string)
    requires Empty(p.emailHomeUrl) || "message" !in atts || !atts["message"].Str?
    ensures p.WpMailBody(atts, homeUrl) == atts
  {
  }

  /** A message that does not mention the home URL is left as it is. */
  lemma BodyWithoutHomeUrl(p: WPMailFrom, atts: map<string, Value>, homeUrl: string)
    requires "message" in atts && atts["message"].Str?
    requires !Occurs(homeUrl, atts["message"].s)
    ensures p.WpMailBody(atts, homeUrl) == atts
  {
    var r := p.WpMailBody(atts, homeUrl);
    if p.RewritesBody(atts) {
      assert r["message"] == atts["message"];
      assert r.Keys == atts.Keys;
    }
  }

  /** The rewritten message is the original cut at the occurrences of the
      home URL found left to right without overlap, with `emailHomeUrl` in
      each cut: none of the pieces mentions the home URL any more. */
  lemma BodyReplacesScannedOccurrences(p: WPMailFrom, atts: map<string, Value>, homeUrl: string)
    requires p.RewritesBody(atts) && homeUrl != []
    ensures var msg := atts["message"].s;
            var pieces := Split(msg, homeUrl);
            && Join(pieces, homeUrl) == msg
            && p.WpMailBody(atts, homeUrl)["message"] == Str(Join(pieces, p.emailHomeUrl))
            && forall i :: 0 <= i < |pieces| ==> !Occurs(homeUrl, pieces[i])
  {
    var msg := atts["message"].s;
    JoinSplit(msg, homeUrl);
    SplitPiecesAreFree(msg, homeUrl);
  }

  /** The plugin's static instance: `instance()` constructs it on first use and
      returns the same object ever after. */
  class Plugin {
    var instance: WPMailFrom?

    constructor ()
      ensures instance == null
    {
      instance := null;
    }

    method Instance(wpMailFrom: Option<string>, isEmail: string -> bool,
                    wpMailHome: Option<string>, isUrl: string -> bool,
                    registry: Registry) returns (r: WPMailFrom)
      modifies this, registry
      ensures instance == r
      ensures old(instance) != null ==> r == old(instance) && registry.log == old(registry.log)
      ensures old(instance) == null ==> fresh(r)
      ensures old(instance) == null ==>
                && r.username == DefaultUsername && r.fromName == "" && r.domain == ""
                && r.emailFrom == (if Accepted(wpMailFrom, isEmail) then wpMailFrom.value else "")
                && r.emailHomeUrl == (if Accepted(wpMailHome, isUrl) then wpMailHome.value else "")
                && registry.log == old(registry.log) + ConstructorHooks(Accepted(wpMailFrom, isEmail), Accepted(wpMailHome, isUrl))
    {
      if instance == null {
        instance := new WPMailFrom(wpMailFrom, isEmail, wpMailHome, isUrl, registry);
      }
      r := instance;
    }
  }
}
